/**
 * The string logic of the email client: finding the request id in a reply
 * (`EmailClient._extract_request_id`, searched over body then subject) and
 * the plain-text-to-HTML conversion used for outgoing mail
 * (`EmailClient._plain_to_html`).
 *
 * Each of the three regular expressions is modelled by a function that says
 * whether, and with which group, the pattern matches at one position;
 * `Search` is `re.search`: the match at the leftmost position that has one.
 */
module Email {
  import opened Wrappers
  import opened Text

  // ---------------------------------------------------------------------------
  // Runs of characters

  /** The length of the run of `[\w\-]` characters of `s` from `i` (greedy `[\w\-]*`). */
  function TokenRun(s: string, i: nat): (n: nat)
    ensures n > 0 ==> i + n <= |s|
    decreases |s| - i
  {
    if i < |s| && IsTokenChar(s[i]) then 1 + TokenRun(s, i + 1) else 0
  }

  /** The length of the run of `\s` characters of `s` from `i` (greedy `\s*`). */
  function SpaceRun(s: string, i: nat): (n: nat)
    ensures n > 0 ==> i + n <= |s|
    decreases |s| - i
  {
    if i < |s| && IsSpace(s[i]) then 1 + SpaceRun(s, i + 1) else 0
  }

  /** The lower-case literal `w` occurs at `i`, ignoring case (`re.IGNORECASE`). */
  predicate LiteralAtIgnoreCase(s: string, w: string, i: nat) {
    i + |w| <= |s| && forall k :: 0 <= k < |w| ==> LowerChar(s[i + k]) == w[k]
  }

  /** `\b` at position `e`: a word character on exactly one side. */
  predicate BoundaryAt(s: string, e: nat) {
    (0 < e <= |s| && IsWordChar(s[e - 1])) != (e < |s| && IsWordChar(s[e]))
  }

  // ---------------------------------------------------------------------------
  // The three patterns, at one position

  /**
   * Pattern 1, `\[Request\s+ID:\s*(req_[\w\-]+)\]` ignoring case, at `i`.
   * The whitespace runs and the token run are greedy; backtracking into them
   * cannot help, because what must follow each is not of its class.
   */
  function TagAt(s: string, i: nat): Option<string> {
    if i < |s| && s[i] == '[' && LiteralAtIgnoreCase(s, "request", i + 1) then TagAfterRequest(s, i + 8)
    else None
  }

  /** The rest of pattern 1 after "[Request": `\s+ID:\s*`, then the token. */
  function TagAfterRequest(s: string, a: nat): Option<string> {
    var w1 := SpaceRun(s, a);
    if w1 > 0 && LiteralAtIgnoreCase(s, "id:", a + w1) then TagToken(s, a + w1 + 3 + SpaceRun(s, a + w1 + 3))
    else None
  }

  /** The group `(req_[\w\-]+)` at `c`, which must be closed by ']'. */
  function TagToken(s: string, c: nat): Option<string> {
    if LiteralAtIgnoreCase(s, "req_", c) then
      var n := TokenRun(s, c + 4);
      if n > 0 && c + 4 + n < |s| && s[c + 4 + n] == ']' then Some(s[c..c + 4 + n]) else None
    else None
  }

  /** The largest `e` with `j < e <= top` at which `\b` holds: where greedy `[\w\-]+\b` stops. */
  function BoundaryEnd(s: string, j: nat, top: nat): (r: Option<nat>)
    ensures r.Some? ==> j < r.value <= top && BoundaryAt(s, r.value)
    ensures r.Some? ==> forall e :: r.value < e <= top ==> !BoundaryAt(s, e)
    ensures r.None? ==> forall e :: j < e <= top ==> !BoundaryAt(s, e)
    decreases top
  {
    if top <= j then None
    else if BoundaryAt(s, top) then Some(top)
    else BoundaryEnd(s, j, top - 1)
  }

  /** Pattern 2, `\b(req_[\w\-]+)\b`, case-sensitive, at `i`. */
  function BareAt(s: string, i: nat): Option<string> {
    if !(BoundaryAt(s, i) && OccursAt(s, "req_", i)) then None
    else
      var j := i + 4;
      match BoundaryEnd(s, j, j + TokenRun(s, j))
      case None => None
      case Some(e) => Some(s[i..e])
  }

  /** Pattern 3, `req[_\-]([\w\-]+)` ignoring case, at `i`: the group behind "req_". */
  function LooseAt(s: string, i: nat): Option<string> {
    if !(LiteralAtIgnoreCase(s, "req", i) && i + 3 < |s| && (s[i + 3] == '_' || s[i + 3] == '-')) then None
    else
      var n := TokenRun(s, i + 4);
      if n == 0 then None else Some("req_" + s[i + 4..i + 4 + n])
  }

  /** `re.search`: the match of `at` at the leftmost position from `i` on. */
  function Search(at: (string, nat) -> Option<string>, s: string, i: nat): Option<string>
    decreases |s| - i
  {
    if i >= |s| then None
    else if at(s, i).Some? then at(s, i)
    else Search(at, s, i + 1)
  }

  /** `EmailClient._extract_request_id`: the three patterns in priority order. */
  function ExtractRequestId(text: string): Option<string> {
    if text == "" then None
    else if Search(TagAt, text, 0).Some? then Search(TagAt, text, 0)
    else if Search(BareAt, text, 0).Some? then Search(BareAt, text, 0)
    else Search(LooseAt, text, 0)
  }

  /** The id of a parsed reply: the body is searched before the subject. */
  function ReplyRequestId(body: string, subject: string): Option<string> {
    ExtractRequestId(body + " " + subject)
  }

  // ---------------------------------------------------------------------------
  // `Search` finds the leftmost match

  lemma {:induction false} SearchLeftmost(at: (string, nat) -> Option<string>, s: string, i: nat, k: nat)
    requires i <= k < |s| && at(s, k).Some?
    requires forall m :: i <= m < k ==> at(s, m).None?
    ensures Search(at, s, i) == at(s, k)
    decreases k - i
  {
    if i < k {
      SearchLeftmost(at, s, i + 1, k);
    }
  }

  lemma {:induction false} SearchNone(at: (string, nat) -> Option<string>, s: string, i: nat)
    requires forall m :: i <= m < |s| ==> at(s, m).None?
    ensures Search(at, s, i) == None
    decreases |s| - i
  {
    if i < |s| {
      SearchNone(at, s, i + 1);
    }
  }

  /** A found match is the one at some position with no match before it. */
  lemma {:induction false} SearchSound(at: (string, nat) -> Option<string>, s: string, i: nat) returns (k: nat)
    requires Search(at, s, i).Some?
    ensures i <= k < |s| && Search(at, s, i) == at(s, k)
    ensures forall m :: i <= m < k ==> at(s, m).None?
    decreases |s| - i
  {
    if at(s, i).Some? {
      k := i;
    } else {
      k := SearchSound(at, s, i + 1);
    }
  }

  // ---------------------------------------------------------------------------
  // What the patterns accept

  /** A request id as the patterns read it: "req_" and a non-empty `[\w\-]` run. */
  predicate IsReqToken(id: string) {
    |id| > 4 && id[..4] == "req_" && AllTokenChars(id[4..])
  }

  /** The line an outgoing scheduling email carries its id in. */
  function TagLine(id: string): string {
    "[Request ID: " + id + "]"
  }

  /** The token run is exactly the token characters up to the first other one. */
  lemma {:induction false} TokenRunExact(s: string, i: nat, n: nat)
    requires i + n <= |s|
    requires forall k :: i <= k < i + n ==> IsTokenChar(s[k])
    requires i + n == |s| || !IsTokenChar(s[i + n])
    ensures TokenRun(s, i) == n
    decreases n
  {
    if n > 0 {
      TokenRunExact(s, i + 1, n - 1);
    }
  }

  lemma {:induction false} TokenRunChars(s: string, i: nat)
    ensures forall k :: i <= k < i + TokenRun(s, i) ==> IsTokenChar(s[k])
    decreases |s| - i
  {
    if i < |s| && IsTokenChar(s[i]) {
      TokenRunChars(s, i + 1);
    }
  }

  lemma {:induction false} SpaceRunExact(s: string, i: nat, n: nat)
    requires i + n <= |s|
    requires forall k :: i <= k < i + n ==> IsSpace(s[k])
    requires i + n == |s| || !IsSpace(s[i + n])
    ensures SpaceRun(s, i) == n
    decreases n
  {
    if n > 0 {
      SpaceRunExact(s, i + 1, n - 1);
    }
  }

  lemma {:induction false} SpaceRunChars(s: string, i: nat)
    ensures forall k :: i <= k < i + SpaceRun(s, i) ==> IsSpace(s[k])
    ensures i < |s| ==> i + SpaceRun(s, i) == |s| || !IsSpace(s[i + SpaceRun(s, i)])
    decreases |s| - i
  {
    if i < |s| && IsSpace(s[i]) {
      SpaceRunChars(s, i + 1);
    }
  }

  /** A whitespace run followed by a literal that starts with a letter has exactly its length. */
  lemma SpaceRunBeforeLetter(s: string, a: nat, n: nat, w: string)
    requires LiteralAtIgnoreCase(s, w, a + n) && |w| > 0 && 'a' <= w[0] <= 'z'
    requires forall k :: a <= k < a + n ==> IsSpace(s[k])
    ensures SpaceRun(s, a) == n
  {
    assert LowerChar(s[a + n + 0]) == w[0];
    SpaceRunExact(s, a, n);
  }

  lemma TagTokenAccepts(s: string, c: nat, n: nat)
    requires n > 0 && c + 4 + n < |s|
    requires LiteralAtIgnoreCase(s, "req_", c)
    requires forall k :: c + 4 <= k < c + 4 + n ==> IsTokenChar(s[k])
    requires s[c + 4 + n] == ']'
    ensures TagToken(s, c) == Some(s[c..c + 4 + n])
  {
    TokenRunExact(s, c + 4, n);
  }

  lemma TagAfterRequestAccepts(s: string, a: nat, n1: nat, n2: nat, n: nat)
    requires n > 0 && a + 7 + n1 + n2 + n < |s|
    requires n1 > 0 && forall k :: a <= k < a + n1 ==> IsSpace(s[k])
    requires LiteralAtIgnoreCase(s, "id:", a + n1)
    requires forall k :: a + n1 + 3 <= k < a + n1 + 3 + n2 ==> IsSpace(s[k])
    requires LiteralAtIgnoreCase(s, "req_", a + n1 + 3 + n2)
    requires forall k :: a + 7 + n1 + n2 <= k < a + 7 + n1 + n2 + n ==> IsTokenChar(s[k])
    requires s[a + 7 + n1 + n2 + n] == ']'
    ensures TagAfterRequest(s, a) == Some(s[a + n1 + 3 + n2..a + 7 + n1 + n2 + n])
  {
    SpaceRunBeforeLetter(s, a, n1, "id:");
    SpaceRunBeforeLetter(s, a + n1 + 3, n2, "req_");
    TagTokenAccepts(s, a + n1 + 3 + n2, n);
  }

  /**
   * A tag at `i` in any letter case, with `n1 >= 1` whitespace characters
   * after "Request", `n2 >= 0` after "ID:" and a token run of `n >= 1`
   * characters after "req_", closed by ']'.
   */
  predicate TagShapeAt(s: string, i: nat, n1: nat, n2: nat, n: nat) {
    && n > 0 && i + 15 + n1 + n2 + n < |s|
    && s[i] == '[' && LiteralAtIgnoreCase(s, "request", i + 1)
    && n1 > 0 && (forall k :: i + 8 <= k < i + 8 + n1 ==> IsSpace(s[k]))
    && LiteralAtIgnoreCase(s, "id:", i + 8 + n1)
    && (forall k :: i + 11 + n1 <= k < i + 11 + n1 + n2 ==> IsSpace(s[k]))
    && LiteralAtIgnoreCase(s, "req_", i + 11 + n1 + n2)
    && (forall k :: i + 15 + n1 + n2 <= k < i + 15 + n1 + n2 + n ==> IsTokenChar(s[k]))
    && s[i + 15 + n1 + n2 + n] == ']'
  }

  /** The tag pattern accepts every such shape, and its group keeps the case it was written in. */
  lemma TagAtAccepts(s: string, i: nat, n1: nat, n2: nat, n: nat)
    requires TagShapeAt(s, i, n1, n2, n)
    ensures TagAt(s, i) == Some(s[i + 11 + n1 + n2..i + 15 + n1 + n2 + n])
  {
    TagAfterRequestAccepts(s, i + 8, n1, n2, n);
  }

  /** The characters of `[Request ID: <id>]` at `i`. */
  predicate TagLineAt(s: string, i: nat, id: string) {
    && i + 14 + |id| <= |s|
    && s[i] == '[' && LiteralAtIgnoreCase(s, "request", i + 1)
    && s[i + 8] == ' ' && s[i + 9] == 'I' && LiteralAtIgnoreCase(s, "id:", i + 9)
    && s[i + 12] == ' '
    && (forall k :: 0 <= k < |id| ==> s[i + 13 + k] == id[k])
    && s[i + 13 + |id|] == ']'
  }

  lemma TagLineLayout(s: string, p: string, id: string, q: string)
    requires s == p + TagLine(id) + q
    ensures TagLineAt(s, |p|, id)
  {
    var t := TagLine(id);
    assert forall k :: 0 <= k < |t| ==> s[|p| + k] == t[k];
    assert forall k :: 0 <= k < |id| ==> t[13 + k] == id[k];
  }

  lemma ReqTokenAt(s: string, c: nat, id: string)
    requires IsReqToken(id) && c + |id| <= |s|
    requires forall k :: 0 <= k < |id| ==> s[c + k] == id[k]
    ensures LiteralAtIgnoreCase(s, "req_", c)
    ensures forall k :: c + 4 <= k < c + |id| ==> IsTokenChar(s[k])
    ensures s[c..c + |id|] == id
  {
    forall k | 0 <= k < 4 ensures LowerChar(s[c + k]) == "req_"[k] {
      assert id[k] == id[..4][k];
    }
    forall k | c + 4 <= k < c + |id| ensures IsTokenChar(s[k]) {
      assert s[k] == s[c + (k - c)] == id[k - c] == id[4..][k - c - 4];
    }
  }

  lemma TagAtLineAt(s: string, i: nat, id: string)
    requires IsReqToken(id) && TagLineAt(s, i, id)
    ensures TagAt(s, i) == Some(id)
  {
    ReqTokenAt(s, i + 13, id);
    TagAtAccepts(s, i, 1, 1, |id| - 4);
  }

  lemma TagAtLine(p: string, id: string, q: string)
    requires IsReqToken(id)
    ensures TagAt(p + TagLine(id) + q, |p|) == Some(id)
  {
    var s := p + TagLine(id) + q;
    TagLineLayout(s, p, id, q);
    TagAtLineAt(s, |p|, id);
  }

  /** No position before the first '[' starts a tag. */
  lemma NoTagBefore(s: string, n: nat)
    requires n <= |s| && forall k :: 0 <= k < n ==> s[k] != '['
    ensures forall m :: 0 <= m < n ==> TagAt(s, m).None?
  {
  }

  /** Text without a '[' holds no tag. */
  lemma NoBracketNoTag(s: string)
    requires '[' !in s
    ensures Search(TagAt, s, 0).None?
  {
    assert forall k :: 0 <= k < |s| ==> s[k] in s;
    NoTagBefore(s, |s|);
    SearchNone(TagAt, s, 0);
  }

  /** A tag that starts at the first '[' of the text is the id, whatever else the text holds. */
  lemma TagFirstWins(s: string, i: nat)
    requires TagAt(s, i).Some?
    requires forall k :: 0 <= k < i ==> s[k] != '['
    ensures ExtractRequestId(s) == TagAt(s, i)
  {
    NoTagBefore(s, i);
    SearchLeftmost(TagAt, s, 0, i);
  }

  /** No tag pattern match starts anywhere in `s`. */
  predicate NoTag(s: string) {
    forall m :: 0 <= m < |s| ==> TagAt(s, m).None?
  }

  /** `NoTag` is the search coming back empty. */
  lemma NoTagSearch(s: string)
    ensures NoTag(s) <==> Search(TagAt, s, 0).None?
  {
    if NoTag(s) {
      SearchNone(TagAt, s, 0);
    } else {
      if Search(TagAt, s, 0).None? {
        SearchNoneAll(TagAt, s, 0);
      }
    }
  }

  /** Converse of `SearchNone`: an empty search means no match anywhere. */
  lemma {:induction false} SearchNoneAll(at: (string, nat) -> Option<string>, s: string, i: nat)
    requires Search(at, s, i).None?
    ensures forall m :: i <= m < |s| ==> at(s, m).None?
    decreases |s| - i
  {
    if i < |s| {
      SearchNoneAll(at, s, i + 1);
    }
  }

  /**
   * Round trip of the tag line: text holding `[Request ID: <id>]` yields
   * `<id>` for any id "req_" + `[\w\-]+`, whatever the text holds after
   * it, as long as no tag match comes before it. A '[' before the tag line
   * that does not open a complete tag, as in "see [1]", is skipped.
   */
  lemma TagRoundTrip(p: string, id: string, q: string)
    requires NoTag(p)
    requires IsReqToken(id)
    ensures ExtractRequestId(p + TagLine(id) + q) == Some(id)
  {
    NoTagBeforeLine(p, TagLine(id), q, |p|);
    TagAtLine(p, id, q);
    TagFirstMatch(p + TagLine(id) + q, |p|);
  }

  /**
   * A '[' that opens something other than a tag, as in a job title, a
   * footnote mark or a mail client's image placeholder, holds no tag.
   */
  lemma BracketedWordsHoldNoTag()
    ensures NoTag("Engineer [Remote]") && NoTag("see [1]") && NoTag("[image: logo]")
  {
    var a := "Engineer [Remote]";
    forall m | 0 <= m < |a| ensures TagAt(a, m).None? {
      if m == 9 { assert LowerChar(a[12]) != "request"[2]; }
    }
    var b := "see [1]";
    forall m | 0 <= m < |b| ensures TagAt(b, m).None? {
      if m == 4 { assert LowerChar(b[5]) != "request"[0]; }
    }
    var c := "[image: logo]";
    forall m | 0 <= m < |c| ensures TagAt(c, m).None? {
      if m == 0 { assert LowerChar(c[1]) != "request"[0]; }
    }
  }

  /** Conversely, a tag earlier in the text is returned in place of the tag line's id. */
  lemma TagEarlierWins(p: string, id: string, q: string)
    requires !NoTag(p)
    ensures ExtractRequestId(p + TagLine(id) + q) == Search(TagAt, p, 0)
  {
    NoTagSearch(p);
    var k := SearchSound(TagAt, p, 0);
    var s := p + TagLine(id) + q;
    NoTagBeforeLine(p, TagLine(id), q, k);
    assert s[..|p|] == p;
    TagExtend(s, p, k);
    TagFirstMatch(s, k);
  }

  /** The leftmost tag match is the id. */
  lemma TagFirstMatch(s: string, k: nat)
    requires k < |s| && TagAt(s, k).Some?
    requires forall m :: 0 <= m < k ==> TagAt(s, m).None?
    ensures ExtractRequestId(s) == TagAt(s, k)
  {
    SearchLeftmost(TagAt, s, 0, k);
  }

  /** Positions of `p` without a tag have none when a '[' follows `p`. */
  lemma NoTagBeforeLine(p: string, line: string, q: string, k: nat)
    requires k <= |p| && |line| > 0 && line[0] == '['
    requires forall m :: 0 <= m < k ==> TagAt(p, m).None?
    ensures forall m :: 0 <= m < k ==> TagAt(p + line + q, m).None?
  {
    var s := p + line + q;
    assert s[0..|p|] == p && s[|p|] == '[';
    forall m | 0 <= m < k ensures TagAt(s, m).None? {
      TagConfinedAt(s, 0, p, m, 0);
    }
  }

  /** The characters a tag match may hold after its opening '['. */
  predicate TagChar(c: char) {
    IsSpace(c) || IsTokenChar(c) || c == ':' || c == ']'
  }

  lemma LiteralTagChars(s: string, w: string, i: nat)
    requires LiteralAtIgnoreCase(s, w, i)
    requires forall k :: 0 <= k < |w| ==> IsTokenChar(w[k]) || w[k] == ':'
    ensures forall k :: i <= k < i + |w| ==> TagChar(s[k])
  {
    forall k | i <= k < i + |w| ensures TagChar(s[k]) {
      assert LowerChar(s[i + (k - i)]) == w[k - i];
    }
  }

  /** Every character of a tag match after its '[' is a `TagChar`. */
  lemma TagShapeChars(s: string, i: nat, n1: nat, n2: nat, n: nat)
    requires TagShapeAt(s, i, n1, n2, n)
    ensures forall k :: i < k <= i + 15 + n1 + n2 + n ==> TagChar(s[k])
  {
    assert forall k :: 0 <= k < 7 ==> IsTokenChar("request"[k]);
    assert forall k :: 0 <= k < 3 ==> IsTokenChar("id:"[k]) || "id:"[k] == ':';
    assert forall k :: 0 <= k < 4 ==> IsTokenChar("req_"[k]);
    LiteralTagChars(s, "request", i + 1);
    LiteralTagChars(s, "id:", i + 8 + n1);
    LiteralTagChars(s, "req_", i + 11 + n1 + n2);
  }

  lemma CharMoved(s: string, i: nat, t: string, j: nat, len: nat, d: nat)
    requires i + len <= |s| && j + len <= |t| && d < len
    requires t[j..j + len] == s[i..i + len]
    ensures t[j + d] == s[i + d]
  {
    assert t[j..j + len][d] == s[i..i + len][d];
  }

  /** The literal `w` at `i + d` in `s` is found at `j + d` in `t` where `t` copies `s`. */
  lemma LiteralMoved(s: string, i: nat, t: string, j: nat, len: nat, w: string, d: nat)
    requires i + len <= |s| && j + len <= |t|
    requires t[j..j + len] == s[i..i + len]
    requires d + |w| <= len && LiteralAtIgnoreCase(s, w, i + d)
    ensures LiteralAtIgnoreCase(t, w, j + d)
  {
    forall k | 0 <= k < |w| ensures LowerChar(t[j + d + k]) == w[k] {
      CharMoved(s, i, t, j, len, d + k);
    }
  }

  /**
   * A tag shape is a property of the characters it covers alone: copied to
   * another place in another text, it is a tag shape there too.
   */
  lemma TagShapeMoved(s: string, i: nat, t: string, j: nat, n1: nat, n2: nat, n: nat)
    requires TagShapeAt(s, i, n1, n2, n)
    requires j + 16 + n1 + n2 + n <= |t|
    requires t[j..j + 16 + n1 + n2 + n] == s[i..i + 16 + n1 + n2 + n]
    ensures TagShapeAt(t, j, n1, n2, n)
  {
    var len := 16 + n1 + n2 + n;
    CharMoved(s, i, t, j, len, 0);
    CharMoved(s, i, t, j, len, 15 + n1 + n2 + n);
    LiteralMoved(s, i, t, j, len, "request", 1);
    LiteralMoved(s, i, t, j, len, "id:", 8 + n1);
    LiteralMoved(s, i, t, j, len, "req_", 11 + n1 + n2);
    SpacesMoved(s, i, t, j, len, 8, n1);
    SpacesMoved(s, i, t, j, len, 11 + n1, n2);
    TokensMoved(s, i, t, j, len, 15 + n1 + n2, n);
  }

  lemma SpacesMoved(s: string, i: nat, t: string, j: nat, len: nat, d: nat, c: nat)
    requires i + len <= |s| && j + len <= |t| && d + c <= len
    requires t[j..j + len] == s[i..i + len]
    requires forall k :: i + d <= k < i + d + c ==> IsSpace(s[k])
    ensures forall k :: j + d <= k < j + d + c ==> IsSpace(t[k])
  {
    forall k | j + d <= k < j + d + c ensures IsSpace(t[k]) {
      CharMoved(s, i, t, j, len, k - j);
    }
  }

  lemma TokensMoved(s: string, i: nat, t: string, j: nat, len: nat, d: nat, c: nat)
    requires i + len <= |s| && j + len <= |t| && d + c <= len
    requires t[j..j + len] == s[i..i + len]
    requires forall k :: i + d <= k < i + d + c ==> IsTokenChar(s[k])
    ensures forall k :: j + d <= k < j + d + c ==> IsTokenChar(t[k])
  {
    forall k | j + d <= k < j + d + c ensures IsTokenChar(t[k]) {
      CharMoved(s, i, t, j, len, k - j);
    }
  }

  /** The end of a tag shape starting inside `p`, copied into `s` at `o`, is inside `p` when `s` cuts it off. */
  lemma TagShapeEnd(s: string, o: nat, p: string, m: nat, n1: nat, n2: nat, n: nat, j: nat)
    requires m < |p| && TagShapeAt(s, o + m, n1, n2, n)
    requires o + |p| + j <= |s| && (o + |p| + j < |s| ==> !TagChar(s[o + |p| + j]))
    requires forall k :: o + |p| <= k < o + |p| + j ==> s[k] != ']'
    ensures m + 15 + n1 + n2 + n < |p|
  {
    var e := o + m + 15 + n1 + n2 + n;
    if e >= o + |p| + j {
      TagShapeChars(s, o + m, n1, n2, n);
    }
  }

  /** A copied tag shape is a tag match. */
  lemma ShapeTagAt(s: string, i: nat, t: string, j: nat, n1: nat, n2: nat, n: nat)
    requires TagShapeAt(s, i, n1, n2, n)
    requires j + 16 + n1 + n2 + n <= |t|
    requires t[j..j + 16 + n1 + n2 + n] == s[i..i + 16 + n1 + n2 + n]
    ensures TagAt(t, j).Some?
  {
    TagShapeMoved(s, i, t, j, n1, n2, n);
    TagAtAccepts(t, j, n1, n2, n);
  }

  lemma SliceOfSlice(s: string, a: nat, b: nat, i: nat, j: nat)
    requires a <= b <= |s| && i <= j <= b - a
    ensures s[a..b][i..j] == s[a + i..a + j]
  {
    var t := s[a..b][i..j];
    var u := s[a + i..a + j];
    forall k | 0 <= k < j - i ensures t[k] == u[k] {
      assert t[k] == s[a + (i + k)];
    }
  }

  lemma SliceOfCopy(s: string, o: nat, p: string, m: nat, len: nat)
    requires o + |p| <= |s| && s[o..o + |p|] == p && m + len <= |p|
    ensures p[m..m + len] == s[o + m..o + m + len]
  {
    SliceOfSlice(s, o, o + |p|, m, m + len);
  }

  lemma TagInsideCopy(s: string, o: nat, p: string, m: nat, j: nat)
    requires o + |p| <= |s| && s[o..o + |p|] == p && m < |p|
    requires o + |p| + j <= |s| && (o + |p| + j < |s| ==> !TagChar(s[o + |p| + j]))
    requires forall k :: o + |p| <= k < o + |p| + j ==> s[k] != ']'
    requires TagAt(s, o + m).Some?
    ensures TagAt(p, m).Some?
  {
    var n1, n2, n := TagShapeOf(s, o + m);
    TagShapeEnd(s, o, p, m, n1, n2, n, j);
    SliceOfCopy(s, o, p, m, 16 + n1 + n2 + n);
    ShapeTagAt(s, o + m, p, m, n1, n2, n);
  }

  /** The shape of a tag match, without its group. */
  lemma TagShapeOf(s: string, i: nat) returns (n1: nat, n2: nat, n: nat)
    requires TagAt(s, i).Some?
    ensures TagShapeAt(s, i, n1, n2, n)
  {
    n1, n2, n := TagAtOnly(s, i);
  }

  /** `TagConfined` for a copy of `p` at offset `o` of any text `s`. */
  lemma TagConfinedAt(s: string, o: nat, p: string, m: nat, j: nat)
    requires o + |p| <= |s| && s[o..o + |p|] == p
    requires m < |p| && TagAt(p, m).None?
    requires o + |p| + j <= |s| && (o + |p| + j < |s| ==> !TagChar(s[o + |p| + j]))
    requires forall k :: o + |p| <= k < o + |p| + j ==> s[k] != ']'
    ensures TagAt(s, o + m).None?
  {
    if TagAt(s, o + m).Some? {
      TagInsideCopy(s, o, p, m, j);
    }
  }

  /**
   * No tag match starts inside `p`, placed between `a` and `r`, at a position
   * where `p` alone has none, when `r` breaks off every tag that would run
   * on into it: its first `j` characters hold no ']' and are followed by the
   * end of the text or by a character no tag can hold.
   */
  lemma TagConfined(a: string, p: string, r: string, m: nat, j: nat)
    requires m < |p| && TagAt(p, m).None?
    requires j <= |r| && (j < |r| ==> !TagChar(r[j]))
    requires forall k :: 0 <= k < j ==> r[k] != ']'
    ensures TagAt(a + p + r, |a| + m).None?
  {
    var s := a + p + r;
    assert s[|a|..|a| + |p|] == p;
    assert forall k :: |a| + |p| <= k < |s| ==> s[k] == r[k - |a| - |p|];
    TagConfinedAt(s, |a|, p, m, j);
  }

  /** A tag match is not disturbed by what follows it. */
  lemma TagExtend(s: string, p: string, m: nat)
    requires |p| <= |s| && s[..|p|] == p
    requires TagAt(p, m).Some?
    ensures TagAt(s, m) == TagAt(p, m)
  {
    var n1, n2, n := TagShapeOf(p, m);
    SliceOfSlice(s, 0, |p|, m, m + 16 + n1 + n2 + n);
    assert s[..|p|] == s[0..|p|];
    TagMovedValue(p, m, s, m, n1, n2, n);
  }

  /** A copied tag shape is a tag match with the same group. */
  lemma TagMovedValue(s: string, i: nat, t: string, j: nat, n1: nat, n2: nat, n: nat)
    requires TagShapeAt(s, i, n1, n2, n)
    requires j + 16 + n1 + n2 + n <= |t|
    requires t[j..j + 16 + n1 + n2 + n] == s[i..i + 16 + n1 + n2 + n]
    ensures TagAt(t, j) == TagAt(s, i)
  {
    var len := 16 + n1 + n2 + n;
    TagShapeMoved(s, i, t, j, n1, n2, n);
    TagAtAccepts(s, i, n1, n2, n);
    TagAtAccepts(t, j, n1, n2, n);
    SliceOfSlice(s, i, i + len, 11 + n1 + n2, 15 + n1 + n2 + n);
    SliceOfSlice(t, j, j + len, 11 + n1 + n2, 15 + n1 + n2 + n);
  }

  /** Tag-free text with bracket-free text around it stays tag-free, if the text after cuts tags off. */
  lemma NoTagJoin(a: string, p: string, r: string, j: nat)
    requires '[' !in a && '[' !in r && NoTag(p)
    requires j <= |r| && (j < |r| ==> !TagChar(r[j]))
    requires forall k :: 0 <= k < j ==> r[k] != ']'
    ensures NoTag(a + p + r)
  {
    var s := a + p + r;
    forall m | 0 <= m < |s| ensures TagAt(s, m).None? {
      if m < |a| {
        assert s[m] == a[m];
      } else if m < |a| + |p| {
        TagConfined(a, p, r, m - |a|, j);
      } else {
        assert s[m] == r[m - |a| - |p|];
      }
    }
  }

  /** Conversely, every tag match has that shape: the two lemmas together are an if-and-only-if. */
  lemma TagAtOnly(s: string, i: nat) returns (n1: nat, n2: nat, n: nat)
    requires TagAt(s, i).Some?
    ensures TagShapeAt(s, i, n1, n2, n)
    ensures TagAt(s, i) == Some(s[i + 11 + n1 + n2..i + 15 + n1 + n2 + n])
  {
    n1, n2, n := TagAfterRequestOnly(s, i + 8);
  }

  /** Converse of `TagTokenAccepts`. */
  lemma TagTokenOnly(s: string, c: nat) returns (n: nat)
    requires TagToken(s, c).Some?
    ensures n > 0 && c + 4 + n < |s|
    ensures LiteralAtIgnoreCase(s, "req_", c)
    ensures forall k :: c + 4 <= k < c + 4 + n ==> IsTokenChar(s[k])
    ensures s[c + 4 + n] == ']'
    ensures TagToken(s, c) == Some(s[c..c + 4 + n])
  {
    n := TokenRun(s, c + 4);
    TokenRunChars(s, c + 4);
  }

  /** Converse of `TagAfterRequestAccepts`. */
  lemma TagAfterRequestOnly(s: string, a: nat) returns (n1: nat, n2: nat, n: nat)
    requires TagAfterRequest(s, a).Some?
    ensures n > 0 && a + 7 + n1 + n2 + n < |s|
    ensures n1 > 0 && forall k :: a <= k < a + n1 ==> IsSpace(s[k])
    ensures LiteralAtIgnoreCase(s, "id:", a + n1)
    ensures forall k :: a + n1 + 3 <= k < a + n1 + 3 + n2 ==> IsSpace(s[k])
    ensures LiteralAtIgnoreCase(s, "req_", a + n1 + 3 + n2)
    ensures forall k :: a + 7 + n1 + n2 <= k < a + 7 + n1 + n2 + n ==> IsTokenChar(s[k])
    ensures s[a + 7 + n1 + n2 + n] == ']'
    ensures TagAfterRequest(s, a) == Some(s[a + n1 + 3 + n2..a + 7 + n1 + n2 + n])
  {
    n1 := SpaceRun(s, a);
    n2 := SpaceRun(s, a + n1 + 3);
    SpaceRunChars(s, a);
    SpaceRunChars(s, a + n1 + 3);
    n := TagTokenOnly(s, a + n1 + 3 + n2);
  }

  /**
   * A word-initial "req_" at `i` followed by a token run of `n >= 1`
   * characters that is not followed by a token character and ends in a word
   * character.
   */
  predicate BareShapeAt(s: string, i: nat, n: nat) {
    && n > 0 && i + 4 + n <= |s|
    && OccursAt(s, "req_", i) && (i == 0 || !IsWordChar(s[i - 1]))
    && (forall k :: i + 4 <= k < i + 4 + n ==> IsTokenChar(s[k]))
    && (i + 4 + n == |s| || !IsTokenChar(s[i + 4 + n]))
    && IsWordChar(s[i + 3 + n])
  }

  /** The bare pattern accepts every such shape. */
  lemma BareAtAccepts(s: string, i: nat, n: nat)
    requires BareShapeAt(s, i, n)
    ensures BareAt(s, i) == Some(s[i..i + 4 + n])
  {
    assert s[i] == "req_"[0];
    TokenRunExact(s, i + 4, n);
  }

  /**
   * With no tag in the text, the leftmost word-initial "req_" whose token run
   * ends in a word character is the id, unless a "req_" occurs before it.
   */
  lemma BareFirst(s: string, i: nat, n: nat)
    requires Search(TagAt, s, 0).None?
    requires forall m :: 0 <= m < i ==> !OccursAt(s, "req_", m)
    requires BareShapeAt(s, i, n)
    ensures ExtractRequestId(s) == Some(s[i..i + 4 + n])
  {
    BareAtAccepts(s, i, n);
    SearchLeftmost(BareAt, s, 0, i);
  }

  /** No "req_" starts inside `p` when `p` has none and `id` starts with "req_". */
  lemma NoBareInPrefix(p: string, id: string, q: string)
    requires !Contains(p, "req_")
    requires |id| >= 4 && id[..4] == "req_"
    ensures forall m :: 0 <= m < |p| ==> !OccursAt(p + id + q, "req_", m)
  {
    var s := p + id + q;
    forall m | 0 <= m < |p| ensures !OccursAt(s, "req_", m) {
      if m + 4 <= |p| {
        assert s[m..m + 4] == p[m..m + 4];
        assert !OccursAt(p, "req_", m);
      } else {
        assert s[m + 3] == id[m + 3 - |p|] == "req_"[m + 3 - |p|];
        assert s[m + 3] != "req_"[3];
      }
    }
  }

  /**
   * Bare fallback: with no '[' in the text and no "req_" before it, a
   * word-initial request id whose last character is a word character is the id.
   */
  lemma BareFallback(p: string, id: string, q: string)
    requires '[' !in p + id + q
    requires !Contains(p, "req_") && (p == [] || !IsWordChar(p[|p| - 1]))
    requires IsReqToken(id) && IsWordChar(id[|id| - 1])
    requires q == [] || !IsTokenChar(q[0])
    ensures ExtractRequestId(p + id + q) == Some(id)
  {
    var s := p + id + q;
    NoBracketNoTag(s);
    NoBareInPrefix(p, id, q);
    BareLayout(p, id, q);
    assert s[|p|..|p| + |id|] == id;
    BareFirst(s, |p|, |id| - 4);
  }

  lemma BareLayout(p: string, id: string, q: string)
    requires p == [] || !IsWordChar(p[|p| - 1])
    requires IsReqToken(id) && IsWordChar(id[|id| - 1])
    requires q == [] || !IsTokenChar(q[0])
    ensures BareShapeAt(p + id + q, |p|, |id| - 4)
  {
    BareStart(p, id, q);
    BareRun(p, id, q);
    BareEnd(p, id, q);
  }

  /** The id starts with "req_" right after a non-word character. */
  lemma BareStart(p: string, id: string, q: string)
    requires p == [] || !IsWordChar(p[|p| - 1])
    requires IsReqToken(id)
    ensures var s := p + id + q;
      OccursAt(s, "req_", |p|) && (|p| == 0 || !IsWordChar(s[|p| - 1]))
  {
    var s := p + id + q;
    assert s[|p|..|p| + 4] == id[..4];
    if p != [] {
      assert s[|p| - 1] == p[|p| - 1];
    }
  }

  /** Its token run lies inside the text and ends in a word character. */
  lemma BareRun(p: string, id: string, q: string)
    requires IsReqToken(id) && IsWordChar(id[|id| - 1])
    ensures var s := p + id + q;
      && (forall k :: |p| + 4 <= k < |p| + |id| ==> IsTokenChar(s[k]))
      && IsWordChar(s[|p| + |id| - 1])
  {
    var s := p + id + q;
    forall k | |p| + 4 <= k < |p| + |id| ensures IsTokenChar(s[k]) {
      assert s[k] == id[4..][k - |p| - 4];
    }
    assert s[|p| + |id| - 1] == id[|id| - 1];
  }

  /** And nothing of the token class follows it. */
  lemma BareEnd(p: string, id: string, q: string)
    requires q == [] || !IsTokenChar(q[0])
    ensures var s := p + id + q;
      |p| + |id| == |s| || !IsTokenChar(s[|p| + |id|])
  {
    if q != [] {
      assert (p + id + q)[|p| + |id|] == q[0];
    }
  }

  /** A loose id as written: "req" in any case, '_' or '-', and a non-empty token run. */
  predicate IsLooseToken(w: string) {
    && |w| > 4
    && (forall k :: 0 <= k < 3 ==> LowerChar(w[k]) == "req"[k])
    && (w[3] == '_' || w[3] == '-')
    && AllTokenChars(w[4..])
  }

  /**
   * With neither a '[' nor a "req_" in the text, and no 'r' (in any case)
   * before `i`, a loose id at `i` gives "req_" and its token run.
   */
  lemma LooseFirst(s: string, i: nat, n: nat)
    requires n > 0 && i + 4 + n <= |s|
    requires '[' !in s && !Contains(s, "req_")
    requires forall k :: 0 <= k < i ==> LowerChar(s[k]) != 'r'
    requires LiteralAtIgnoreCase(s, "req", i) && (s[i + 3] == '_' || s[i + 3] == '-')
    requires forall k :: i + 4 <= k < i + 4 + n ==> IsTokenChar(s[k])
    requires i + 4 + n == |s| || !IsTokenChar(s[i + 4 + n])
    ensures ExtractRequestId(s) == Some("req_" + s[i + 4..i + 4 + n])
  {
    NoBracketNoTag(s);
    SearchNone(BareAt, s, 0);
    forall m | 0 <= m < i ensures !LiteralAtIgnoreCase(s, "req", m) {
      assert LowerChar(s[m + 0]) != "req"[0];
    }
    TokenRunExact(s, i + 4, n);
    SearchLeftmost(LooseAt, s, 0, i);
  }

  /**
   * Loose fallback: with neither a '[' nor a "req_" anywhere, and no 'r'
   * (in any case) before it, a loose id gives "req_" and its run: the
   * separator and the case of "req" are normalised.
   */
  lemma LooseFallback(p: string, w: string, q: string)
    requires '[' !in p + w + q && !Contains(p + w + q, "req_")
    requires forall k :: 0 <= k < |p| ==> LowerChar(p[k]) != 'r'
    requires IsLooseToken(w)
    requires q == [] || !IsTokenChar(q[0])
    ensures ExtractRequestId(p + w + q) == Some("req_" + w[4..])
  {
    var s := p + w + q;
    var i := |p|;
    assert s[i..i + |w|] == w;
    assert forall k :: 0 <= k < i ==> s[k] == p[k];
    assert forall k :: 0 <= k < 3 ==> s[i + k] == w[k];
    assert forall k :: i + 4 <= k < i + |w| ==> s[k] == w[4..][k - i - 4];
    if q != [] {
      assert s[i + |w|] == q[0];
    }
    assert s[i + 4..i + |w|] == w[4..];
    LooseFirst(s, i, |w| - 4);
  }

  /** Empty text has no id. */
  lemma ExtractEmpty()
    ensures ExtractRequestId("") == None
  {
  }

  /** Whatever was found is "req_" (in some letter case) and a token run. */
  lemma ExtractShape(text: string)
    requires ExtractRequestId(text).Some?
    ensures var id := ExtractRequestId(text).value;
      |id| > 4 && Lower(id[..4]) == "req_" && AllTokenChars(id[4..])
  {
    if Search(TagAt, text, 0).Some? {
      var k := SearchSound(TagAt, text, 0);
      TagShape(text, k);
    } else if Search(BareAt, text, 0).Some? {
      var k := SearchSound(BareAt, text, 0);
      BareShape(text, k);
    } else {
      var k := SearchSound(LooseAt, text, 0);
      LooseShape(text, k);
    }
  }

  lemma TagShape(s: string, i: nat)
    requires TagAt(s, i).Some?
    ensures var id := TagAt(s, i).value;
      |id| > 4 && Lower(id[..4]) == "req_" && AllTokenChars(id[4..])
  {
    var a := i + 8;
    var w1 := SpaceRun(s, a);
    var c := a + w1 + 3 + SpaceRun(s, a + w1 + 3);
    var n := TokenRun(s, c + 4);
    TokenRunChars(s, c + 4);
    var id := s[c..c + 4 + n];
    assert forall k :: 0 <= k < 4 ==> id[..4][k] == s[c + k];
    assert forall k :: 0 <= k < n ==> id[4..][k] == s[c + 4 + k];
  }

  lemma BareShape(s: string, i: nat)
    requires BareAt(s, i).Some?
    ensures var id := BareAt(s, i).value;
      |id| > 4 && Lower(id[..4]) == "req_" && AllTokenChars(id[4..])
  {
    var j := i + 4;
    var e := BoundaryEnd(s, j, j + TokenRun(s, j)).value;
    TokenRunChars(s, j);
    var id := s[i..e];
    assert id[..4] == "req_";
    assert forall k :: 0 <= k < e - j ==> id[4..][k] == s[j + k];
  }

  lemma LooseShape(s: string, i: nat)
    requires LooseAt(s, i).Some?
    ensures var id := LooseAt(s, i).value;
      |id| > 4 && Lower(id[..4]) == "req_" && AllTokenChars(id[4..])
  {
    var id := LooseAt(s, i).value;
    TokenRunChars(s, i + 4);
    assert id[..4] == "req_";
    assert id[4..] == s[i + 4..i + 4 + TokenRun(s, i + 4)];
  }

  /** The body is searched first: a tag in the body wins over anything in the subject. */
  lemma BodyTagWins(p: string, id: string, rest: string, subject: string)
    requires NoTag(p)
    requires IsReqToken(id)
    ensures ReplyRequestId(p + TagLine(id) + rest, subject) == Some(id)
  {
    TagRoundTrip(p, id, rest + " " + subject);
    assert p + TagLine(id) + rest + " " + subject == p + TagLine(id) + (rest + " " + subject);
  }

  // ---------------------------------------------------------------------------
  // `_plain_to_html`

  const Bullet: char := '\U{2022}'

  /** The element one line of text becomes. */
  function Element(line: string): string {
    var stripped := Strip(line);
    if |stripped| > 0 && stripped[0] == Bullet then "<li>" + Strip(stripped[1..]) + "</li>"
    else if stripped == "" then "<br>"
    else "<p>" + stripped + "</p>"
  }

  function Elements(lines: seq<string>): (r: seq<string>)
    ensures |r| == |lines|
    ensures forall i :: 0 <= i < |lines| ==> r[i] == Element(lines[i])
  {
    seq(|lines|, i requires 0 <= i < |lines| => Element(lines[i]))
  }

  /** `"".join(...)` */
  function Concat(parts: seq<string>): string
    decreases |parts|
  {
    if parts == [] then "" else Concat(parts[..|parts| - 1]) + parts[|parts| - 1]
  }

  const PageHead: string :=
    "\n<html><body style=\"font-family: Arial, sans-serif; font-size: 14px; color: #333; max-width: 600px;\">\n"

  const PageTail: string := "\n</body></html>"

  /** One line of the loop of `_plain_to_html`. */
  method ConvertLine(line: string) returns (e: string)
    ensures e == Element(line)
  {
    var stripped := Strip(line);
    if |stripped| > 0 && stripped[0] == Bullet {
      e := "<li>" + Strip(stripped[1..]) + "</li>";
    } else if stripped == "" {
      e := "<br>";
    } else {
      e := "<p>" + stripped + "</p>";
    }
  }

  lemma ElementsPrefix(lines: seq<string>, i: nat)
    requires i < |lines|
    ensures Elements(lines[..i + 1]) == Elements(lines[..i]) + [Element(lines[i])]
  {
    assert lines[..i + 1] == lines[..i] + [lines[i]];
  }

  /**
   * `EmailClient._plain_to_html`: one element per `\n`-separated line,
   * joined and wrapped in the page.
   */
  method PlainToHtml(text: string) returns (html: string)
    ensures html == PageHead + Concat(Elements(SplitLines(text))) + PageTail
  {
    var lines := SplitLines(text);
    var htmlLines: seq<string> := [];
    for i := 0 to |lines|
      invariant htmlLines == Elements(lines[..i])
    {
      var e := ConvertLine(lines[i]);
      ElementsPrefix(lines, i);
      htmlLines := htmlLines + [e];
    }
    assert lines[..|lines|] == lines;
    html := PageHead + Concat(htmlLines) + PageTail;
  }

  /** One element per line: as many elements as newlines plus one. */
  lemma ElementsPerLine(text: string)
    ensures |Elements(SplitLines(text))| == CountChar(text, '\n') + 1
  {
    SplitLinesCount(text);
  }

  /**
   * Each element is exactly one of the three kinds: a bullet line becomes
   * `<li>` of what follows the bullet, stripped; a blank line `<br>`; any
   * other line `<p>` of the stripped line.
   */
  lemma ElementKinds(line: string)
    ensures var st := Strip(line);
      && (Element(line) == "<br>" <==> st == "")
      && (st != [] && st[0] == Bullet ==> Element(line) == "<li>" + Strip(st[1..]) + "</li>")
      && (st != [] && st[0] != Bullet ==> Element(line) == "<p>" + st + "</p>")
  {
    var st := Strip(line);
    if st != [] && st[0] == Bullet {
      assert |Element(line)| >= 9;
    } else if st != [] {
      assert |Element(line)| >= 8;
    }
  }

  lemma Wrapped(a: string, x: string, b: string, c: char)
    requires c !in a && c !in x && c !in b
    ensures c !in a + x + b
  {
  }

  /** No element holds a newline, so the page has one line per element in between head and tail. */
  lemma ElementNoNewline(line: string)
    requires '\n' !in line
    ensures '\n' !in Element(line)
  {
    var st := Strip(line);
    StripKeeps(line, '\n');
    if st != [] && st[0] == Bullet {
      var t := st[1..];
      assert forall k :: 0 <= k < |t| ==> t[k] == st[k + 1];
      StripKeeps(t, '\n');
      Wrapped("<li>", Strip(t), "</li>", '\n');
    } else if st != [] {
      Wrapped("<p>", st, "</p>", '\n');
    }
  }
}
