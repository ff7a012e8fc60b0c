/**
 * The slot matcher of the scheduler (`SchedulerAgent._find_overlap`) and the
 * candidate-slot parsing helpers it relies on
 * (`_parse_candidate_slot_start`, `_parse_candidate_slot_end`).
 *
 * A recruiter slot is kept when some parsable candidate slot passes one of
 * four tests; it is kept once per such candidate, re-encoded from its parsed
 * instants, and the list is then deduplicated by start text, first one wins.
 * `Select` states the outcome directly as a filter over the recruiter slots;
 * `DedupOverlapping` shows that the two-phase computation yields it.
 */
module Matcher {
  import opened Wrappers
  import opened Text
  import opened Time
  import opened Calendar

  /** A value of a candidate slot dict: key missing, JSON null, or a string. */
  datatype Field = Absent | Null | Str(text: string)

  /** One slot of the extraction: its `date`, `start_time` and `end_time` keys. */
  datatype CandidateSlot = CandidateSlot(date: Field, startTime: Field, endTime: Field)

  // ---------------------------------------------------------------------------
  // Candidate slots

  /** `s[:5]` */
  function Take5(s: string): (r: string)
    ensures |r| == if |s| <= 5 then |s| else 5
    ensures r == s[..|r|]
  {
    if |s| <= 5 then s else s[..5]
  }

  /** `strptime(f"{date}T{time[:5]}", "%Y-%m-%dT%H:%M")`; None where it raises. */
  function ParseDateTime(date: string, time: string): Option<Instant> {
    ParseFormat(date + "T" + Take5(time), 'T', false)
  }

  /**
   * `_parse_candidate_slot_start`; None where it raises.  A missing or empty
   * date raises; a missing start time reads as "00:00"; a null start time
   * cannot be sliced and raises.
   */
  function CandidateStart(cs: CandidateSlot): Option<Instant> {
    match cs.date
    case Str(d) =>
      if d == "" then None
      else (
        match cs.startTime
        case Absent => ParseDateTime(d, "00:00")
        case Null => None
        case Str(t) => ParseDateTime(d, t))
    case _ => None
  }

  /** The end time written in the slot, when it is present, non-empty and parses. */
  function WrittenEnd(cs: CandidateSlot): Option<Instant> {
    match (cs.date, cs.endTime)
    case (Str(d), Str(e)) => if e == "" then None else ParseDateTime(d, e)
    case _ => None
  }

  /**
   * `_parse_candidate_slot_end`: the written end when it lies strictly after
   * the start, otherwise the start plus the duration.
   */
  function CandidateEnd(cs: CandidateSlot, durationMinutes: nat): (r: Option<Instant>)
    ensures r.Some? <==> CandidateStart(cs).Some?
    ensures r.Some? ==> r.value >= CandidateStart(cs).value
    ensures r.Some? && durationMinutes > 0 ==> r.value > CandidateStart(cs).value
  {
    match CandidateStart(cs)
    case None => None
    case Some(start) => Some(EndAfter(start, WrittenEnd(cs), durationMinutes))
  }

  /** The written end when there is one strictly after `start`, otherwise `start` plus the duration. */
  function EndAfter(start: Instant, written: Option<Instant>, durationMinutes: nat): (r: Instant)
    ensures r >= start && (durationMinutes > 0 ==> r > start)
  {
    if written.Some? && written.value > start then written.value else start + durationMinutes * 60
  }

  /** A candidate slot without a usable date never parses, so it never matches. */
  lemma CandidateWithoutDate(cs: CandidateSlot, durationMinutes: nat)
    requires cs.date == Absent || cs.date == Null || cs.date == Str("")
    ensures CandidateStart(cs) == None && CandidateEnd(cs, durationMinutes) == None
  {
  }

  lemma Take5Clock(h: nat, m: nat, rest: string)
    requires h < 100 && m < 100
    ensures Take5(StampClock(h, m, 0, false) + rest) == StampClock(h, m, 0, false)
  {
    var c := StampClock(h, m, 0, false);
    assert (c + rest)[..5] == c;
  }

  /** "HH:MM" followed by anything (seconds, say) is read as HH:MM on the slot's date. */
  lemma CandidateStartTruncates(day: nat, h: nat, m: nat, rest: string, e: Field)
    requires h < 24 && m < 60
    ensures CandidateStart(CandidateSlot(Str(DateText(day)), Str(StampClock(h, m, 0, false) + rest), e))
      == Some(At(day, h, m, 0))
  {
    Take5Clock(h, m, rest);
    ParseFormatStamp(day, 'T', h, m, 0, false);
    assert DateText(day) + "T" + StampClock(h, m, 0, false) == DateText(day) + ['T'] + StampClock(h, m, 0, false);
  }

  /** A slot with a date and no start time starts at midnight of that date. */
  lemma CandidateStartDefaultsToMidnight(day: nat, e: Field)
    ensures CandidateStart(CandidateSlot(Str(DateText(day)), Absent, e)) == Some(At(day, 0, 0, 0))
  {
    Take5Clock(0, 0, "");
    assert StampClock(0, 0, 0, false) + "" == "00:00";
    ParseFormatStamp(day, 'T', 0, 0, 0, false);
    assert DateText(day) + "T" + "00:00" == DateText(day) + ['T'] + StampClock(0, 0, 0, false);
  }

  /**
   * With both times written as "HH:MM" on the same date, the end is the
   * written one exactly when it is later than the start; otherwise the
   * duration decides.
   */
  lemma WrittenEndClock(day: nat, s: Field, eh: nat, em: nat)
    requires eh < 24 && em < 60
    ensures WrittenEnd(CandidateSlot(Str(DateText(day)), s, Str(StampClock(eh, em, 0, false))))
      == Some(At(day, eh, em, 0))
  {
    Take5Clock(eh, em, "");
    assert StampClock(eh, em, 0, false) + "" == StampClock(eh, em, 0, false);
    ParseFormatStamp(day, 'T', eh, em, 0, false);
    assert DateText(day) + "T" + StampClock(eh, em, 0, false) == DateText(day) + ['T'] + StampClock(eh, em, 0, false);
  }

  /**
   * With both times written as "HH:MM" on the same date, the end is the
   * written one exactly when it is later than the start; otherwise the
   * duration decides.
   */
  lemma CandidateEndWritten(day: nat, sh: nat, sm: nat, eh: nat, em: nat, durationMinutes: nat)
    requires sh < 24 && sm < 60 && eh < 24 && em < 60
    ensures var cs := CandidateSlot(Str(DateText(day)), Str(StampClock(sh, sm, 0, false)),
                                    Str(StampClock(eh, em, 0, false)));
      var start := At(day, sh, sm, 0);
      var end := At(day, eh, em, 0);
      && CandidateStart(cs) == Some(start)
      && CandidateEnd(cs, durationMinutes) == Some(if end > start then end else start + durationMinutes * 60)
  {
    var cs := CandidateSlot(Str(DateText(day)), Str(StampClock(sh, sm, 0, false)),
                            Str(StampClock(eh, em, 0, false)));
    CandidateStartTruncates(day, sh, sm, "", cs.endTime);
    assert StampClock(sh, sm, 0, false) + "" == StampClock(sh, sm, 0, false);
    WrittenEndClock(day, cs.startTime, eh, em);
    CandidateEndFrom(cs, durationMinutes, At(day, sh, sm, 0), At(day, eh, em, 0));
  }

  lemma CandidateEndFrom(cs: CandidateSlot, durationMinutes: nat, start: Instant, written: Instant)
    requires CandidateStart(cs) == Some(start) && WrittenEnd(cs) == Some(written)
    ensures CandidateEnd(cs, durationMinutes) == Some(if written > start then written else start + durationMinutes * 60)
  {
  }

  // ---------------------------------------------------------------------------
  // The four tests

  function Max(a: int, b: int): int { if a >= b then a else b }

  function Min(a: int, b: int): int { if a <= b then a else b }

  /** Test 1: same date and same hour. */
  predicate SameDateHour(rs: Instant, cs: Instant) {
    Day(rs) == Day(cs) && Hour(rs) == Hour(cs)
  }

  /** Test 2: same weekday and same hour. */
  predicate SameWeekdayHour(rs: Instant, cs: Instant) {
    Weekday(rs) == Weekday(cs) && Hour(rs) == Hour(cs)
  }

  /** Test 3: same date, and the candidate gave no time (hour 0). */
  predicate DateOnly(rs: Instant, cs: Instant) {
    Day(rs) == Day(cs) && Hour(cs) == 0
  }

  /** Test 4: the two ranges share at least the duration. */
  predicate RangeOverlap(rsStart: Instant, rsEnd: Instant, csStart: Instant, csEnd: Instant, durationMinutes: nat) {
    Min(rsEnd, csEnd) - Max(rsStart, csStart) >= durationMinutes * 60
  }

  /** Whether a recruiter slot and a candidate slot match: any of the four tests. */
  predicate Matches(rsStart: Instant, rsEnd: Instant, csStart: Instant, csEnd: Instant, durationMinutes: nat) {
    || SameDateHour(rsStart, csStart)
    || SameWeekdayHour(rsStart, csStart)
    || DateOnly(rsStart, csStart)
    || RangeOverlap(rsStart, rsEnd, csStart, csEnd, durationMinutes)
  }

  /**
   * The test the `elif` chain reports (0 when none); it decides only what is
   * logged, not whether the slot is kept.
   */
  function MatchTier(rsStart: Instant, rsEnd: Instant, csStart: Instant, csEnd: Instant, durationMinutes: nat): (tier: nat)
    ensures tier <= 4
    ensures tier != 0 <==> Matches(rsStart, rsEnd, csStart, csEnd, durationMinutes)
    ensures tier == 1 <==> SameDateHour(rsStart, csStart)
    ensures tier == 4 ==> !SameWeekdayHour(rsStart, csStart) && !DateOnly(rsStart, csStart)
  {
    if SameDateHour(rsStart, csStart) then 1
    else if SameWeekdayHour(rsStart, csStart) then 2
    else if DateOnly(rsStart, csStart) then 3
    else if RangeOverlap(rsStart, rsEnd, csStart, csEnd, durationMinutes) then 4
    else 0
  }

  /** The exact-date test is subsumed by the weekday test: same date means same weekday. */
  lemma SameDateHourIsSameWeekdayHour(rs: Instant, cs: Instant)
    requires SameDateHour(rs, cs)
    ensures SameWeekdayHour(rs, cs)
  {
  }

  /** Two ranges that share exactly the duration still match. */
  lemma RangeExactlyDuration(rsStart: Instant, rsEnd: Instant, csStart: Instant, csEnd: Instant, durationMinutes: nat)
    requires Min(rsEnd, csEnd) - Max(rsStart, csStart) == durationMinutes * 60
    ensures Matches(rsStart, rsEnd, csStart, csEnd, durationMinutes)
  {
  }

  // ---------------------------------------------------------------------------
  // Specification of `_find_overlap`

  /** A recruiter slot's two instants, when both texts parse. */
  function ParseRecruiter(rs: Slot): Option<(Instant, Instant)> {
    match (ParseDt(rs.start), ParseDt(rs.end))
    case (Some(s), Some(e)) => Some((s, e))
    case _ => None
  }

  /** The slot `_find_overlap` emits for a recruiter slot: its instants re-encoded. */
  function Normalize(span: (Instant, Instant)): Slot {
    Slot(Iso(span.0), Iso(span.1))
  }

  /** The candidate slot parses and passes one of the tests against the span. */
  predicate CandidateMatches(span: (Instant, Instant), cs: CandidateSlot, durationMinutes: nat) {
    CandidateStart(cs).Some?
    && Matches(span.0, span.1, CandidateStart(cs).value, CandidateEnd(cs, durationMinutes).value, durationMinutes)
  }

  predicate Matched(span: (Instant, Instant), cands: seq<CandidateSlot>, durationMinutes: nat) {
    exists j :: 0 <= j < |cands| && CandidateMatches(span, cands[j], durationMinutes)
  }

  /** How many candidate slots match the span. */
  function MatchCount(span: (Instant, Instant), cands: seq<CandidateSlot>, durationMinutes: nat): nat
    decreases |cands|
  {
    if cands == [] then 0
    else
      MatchCount(span, cands[..|cands| - 1], durationMinutes)
      + (if CandidateMatches(span, cands[|cands| - 1], durationMinutes) then 1 else 0)
  }

  lemma {:induction false} MatchCountPositive(span: (Instant, Instant), cands: seq<CandidateSlot>, durationMinutes: nat)
    ensures MatchCount(span, cands, durationMinutes) > 0 <==> Matched(span, cands, durationMinutes)
    decreases |cands|
  {
    if cands != [] {
      var init := cands[..|cands| - 1];
      MatchCountPositive(span, init, durationMinutes);
      if Matched(span, init, durationMinutes) {
        var j :| 0 <= j < |init| && CandidateMatches(span, init[j], durationMinutes);
        assert cands[j] == init[j];
      }
      if Matched(span, cands, durationMinutes) {
        var j :| 0 <= j < |cands| && CandidateMatches(span, cands[j], durationMinutes);
        if j < |init| {
          assert init[j] == cands[j];
        }
      }
    }
  }

  function Rep(x: Slot, n: nat): (r: seq<Slot>)
    ensures |r| == n && forall i :: 0 <= i < n ==> r[i] == x
  {
    seq(n, _ => x)
  }

  /** What the inner loop appends for one recruiter slot: its entry once per matching candidate. */
  function Emit(rs: Slot, cands: seq<CandidateSlot>, durationMinutes: nat): seq<Slot> {
    match ParseRecruiter(rs)
    case None => []
    case Some(span) => Rep(Normalize(span), MatchCount(span, cands, durationMinutes))
  }

  /** The `overlapping` list built by the nested loops. */
  function Overlapping(recruiter: seq<Slot>, cands: seq<CandidateSlot>, durationMinutes: nat): seq<Slot>
    decreases |recruiter|
  {
    if recruiter == [] then []
    else
      Overlapping(recruiter[..|recruiter| - 1], cands, durationMinutes)
      + Emit(recruiter[|recruiter| - 1], cands, durationMinutes)
  }

  /** The slot a recruiter slot contributes to the result, if any: parsable and matched. */
  function KeepOne(rs: Slot, cands: seq<CandidateSlot>, durationMinutes: nat): Option<Slot> {
    match ParseRecruiter(rs)
    case None => None
    case Some(span) => if Matched(span, cands, durationMinutes) then Some(Normalize(span)) else None
  }

  /** How often a recruiter slot appears in the `overlapping` list. */
  function CountOne(rs: Slot, cands: seq<CandidateSlot>, durationMinutes: nat): nat {
    match ParseRecruiter(rs)
    case None => 0
    case Some(span) => MatchCount(span, cands, durationMinutes)
  }

  function KeepFn(cands: seq<CandidateSlot>, durationMinutes: nat): Slot -> Option<Slot> {
    (rs: Slot) => KeepOne(rs, cands, durationMinutes)
  }

  function CountFn(cands: seq<CandidateSlot>, durationMinutes: nat): Slot -> nat {
    (rs: Slot) => CountOne(rs, cands, durationMinutes)
  }

  /**
   * What `_find_overlap` returns, as a filter over the recruiter slots: a
   * parsable slot some candidate matches, re-encoded, unless an earlier kept
   * slot already has its start.
   */
  function Select(recruiter: seq<Slot>, cands: seq<CandidateSlot>, durationMinutes: nat): seq<Slot> {
    FirstKept(KeepFn(cands, durationMinutes), recruiter)
  }

  // ---------------------------------------------------------------------------
  // Lists of optional slots: deduplication by start, first one wins

  /** The start texts of a list of slots. */
  function StartsOf(s: seq<Slot>): set<string>
    decreases |s|
  {
    if s == [] then {} else StartsOf(s[..|s| - 1]) + {s[|s| - 1].start}
  }

  lemma {:induction false} StartsOfMember(s: seq<Slot>, st: string)
    ensures st in StartsOf(s) <==> exists i :: 0 <= i < |s| && s[i].start == st
    decreases |s|
  {
    if s != [] {
      var init := s[..|s| - 1];
      StartsOfMember(init, st);
      if st in StartsOf(init) {
        var i :| 0 <= i < |init| && init[i].start == st;
        assert s[i] == init[i];
      }
      if exists i :: 0 <= i < |s| && s[i].start == st {
        var i :| 0 <= i < |s| && s[i].start == st;
        if i < |init| {
          assert init[i] == s[i];
        }
      }
    }
  }

  lemma StartsOfLast(acc: seq<Slot>, x: Slot)
    ensures StartsOf(acc + [x]) == StartsOf(acc) + {x.start}
  {
    assert (acc + [x])[..|acc|] == acc;
  }

  /** One step of the `seen`/`unique` loop. */
  function Add(acc: seq<Slot>, x: Slot): seq<Slot> {
    if x.start in StartsOf(acc) then acc else acc + [x]
  }

  /** The `seen`/`unique` loop run over `s`, starting from `acc`. */
  function DedupOnto(acc: seq<Slot>, s: seq<Slot>): seq<Slot>
    decreases |s|
  {
    if s == [] then acc else Add(DedupOnto(acc, s[..|s| - 1]), s[|s| - 1])
  }

  function Dedup(s: seq<Slot>): seq<Slot> {
    DedupOnto([], s)
  }

  /**
   * The slots `keep` yields for the elements of `s`, each dropped when an
   * earlier kept one has its start.
   */
  function FirstKept(keep: Slot -> Option<Slot>, s: seq<Slot>): seq<Slot>
    decreases |s|
  {
    if s == [] then []
    else
      var kept := FirstKept(keep, s[..|s| - 1]);
      var k := keep(s[|s| - 1]);
      if k.Some? then Add(kept, k.value) else kept
  }

  /** The positions in `s` whose slot `FirstKept` keeps. */
  function FirstKeptIndices(keep: Slot -> Option<Slot>, s: seq<Slot>): seq<nat>
    decreases |s|
  {
    if s == [] then []
    else
      var init := s[..|s| - 1];
      var idx := FirstKeptIndices(keep, init);
      var k := keep(s[|s| - 1]);
      if k.Some? && k.value.start !in StartsOf(FirstKept(keep, init)) then idx + [|s| - 1] else idx
  }

  /** The slot `keep` yields for each element, repeated `count` times. */
  function Expand(keep: Slot -> Option<Slot>, count: Slot -> nat, s: seq<Slot>): seq<Slot>
    decreases |s|
  {
    if s == [] then []
    else
      var k := keep(s[|s| - 1]);
      Expand(keep, count, s[..|s| - 1]) + (if k.Some? then Rep(k.value, count(s[|s| - 1])) else [])
  }

  lemma {:induction false} DedupOntoConcat(acc: seq<Slot>, a: seq<Slot>, b: seq<Slot>)
    ensures DedupOnto(acc, a + b) == DedupOnto(DedupOnto(acc, a), b)
    decreases |b|
  {
    if b == [] {
      assert a + b == a;
    } else {
      var init := b[..|b| - 1];
      assert (a + b)[..|a + b| - 1] == a + init;
      assert (a + b)[|a + b| - 1] == b[|b| - 1];
      DedupOntoConcat(acc, a, init);
    }
  }

  lemma {:induction false} DedupOntoRep(acc: seq<Slot>, x: Slot, n: nat)
    requires n > 0
    ensures DedupOnto(acc, Rep(x, n)) == Add(acc, x)
    decreases n
  {
    assert Rep(x, n)[..n - 1] == Rep(x, n - 1);
    if n == 1 {
      assert Rep(x, 0) == [];
    } else {
      DedupOntoRep(acc, x, n - 1);
      var once := Add(acc, x);
      if x.start !in StartsOf(acc) {
        StartsOfLast(acc, x);
      }
      assert x.start in StartsOf(once);
    }
  }

  /** Deduplicating the expanded list keeps exactly the first slot of each start. */
  lemma {:induction false} DedupExpand(keep: Slot -> Option<Slot>, count: Slot -> nat, s: seq<Slot>)
    requires forall i :: 0 <= i < |s| ==> (count(s[i]) > 0 <==> keep(s[i]).Some?)
    ensures Dedup(Expand(keep, count, s)) == FirstKept(keep, s)
    decreases |s|
  {
    if s != [] {
      var init := s[..|s| - 1];
      assert forall i :: 0 <= i < |init| ==> init[i] == s[i];
      DedupExpand(keep, count, init);
      var k, n := keep(s[|s| - 1]), count(s[|s| - 1]);
      var prev := Expand(keep, count, init);
      var tail := if k.Some? then Rep(k.value, n) else [];
      assert Expand(keep, count, s) == prev + tail;
      DedupOntoConcat([], prev, tail);
      if k.Some? {
        DedupOntoRep(Dedup(prev), k.value, n);
      } else {
        assert tail == [];
      }
    }
  }

  predicate DistinctStarts(r: seq<Slot>) {
    forall i, j :: 0 <= i < j < |r| ==> r[i].start != r[j].start
  }

  lemma {:induction false} FirstKeptDistinct(keep: Slot -> Option<Slot>, s: seq<Slot>)
    ensures DistinctStarts(FirstKept(keep, s))
    decreases |s|
  {
    if s != [] {
      var kept := FirstKept(keep, s[..|s| - 1]);
      FirstKeptDistinct(keep, s[..|s| - 1]);
      var r := FirstKept(keep, s);
      if r != kept {
        var x := keep(s[|s| - 1]).value;
        assert r == kept + [x];
        assert x.start !in StartsOf(kept);
        StartsOfMember(kept, x.start);
        forall i, j | 0 <= i < j < |r| ensures r[i].start != r[j].start {
          if j < |kept| {
            assert r[i] == kept[i] && r[j] == kept[j];
          } else {
            assert r[i] == kept[i] && r[j] == x;
          }
        }
      }
    }
  }

  lemma {:induction false} FirstKeptSubsequence(keep: Slot -> Option<Slot>, s: seq<Slot>)
    ensures var r := FirstKept(keep, s);
      var idx := FirstKeptIndices(keep, s);
      && |idx| == |r|
      && (forall k :: 0 <= k < |idx| ==> idx[k] < |s| && keep(s[idx[k]]) == Some(r[k]))
      && (forall k, l :: 0 <= k < l < |idx| ==> idx[k] < idx[l])
    decreases |s|
  {
    if s != [] {
      var init := s[..|s| - 1];
      FirstKeptSubsequence(keep, init);
      var r0 := FirstKept(keep, init);
      var idx0 := FirstKeptIndices(keep, init);
      var r := FirstKept(keep, s);
      var idx := FirstKeptIndices(keep, s);
      assert forall k :: 0 <= k < |idx0| ==> s[idx0[k]] == init[idx0[k]];
      if idx != idx0 {
        assert idx == idx0 + [|s| - 1];
        assert r == r0 + [keep(s[|s| - 1]).value];
      }
    }
  }

  lemma StartsOfPrefix(a: seq<Slot>, b: seq<Slot>)
    requires b == a || (|b| == |a| + 1 && b[..|a|] == a)
    ensures StartsOf(a) <= StartsOf(b)
  {
    if b != a {
      assert b == a + [b[|a|]];
      StartsOfLast(a, b[|a|]);
    }
  }

  /** Each kept start text comes from an element `keep` yields a slot for. */
  lemma FirstKeptStartsSound(keep: Slot -> Option<Slot>, s: seq<Slot>, st: string) returns (j: nat)
    requires st in StartsOf(FirstKept(keep, s))
    ensures j < |s| && keep(s[j]).Some? && keep(s[j]).value.start == st
  {
    var r := FirstKept(keep, s);
    var idx := FirstKeptIndices(keep, s);
    FirstKeptSubsequence(keep, s);
    StartsOfMember(r, st);
    var k :| 0 <= k < |r| && r[k].start == st;
    j := idx[k];
  }

  /**
   * Every element `keep` yields a slot for is represented by its start, and
   * one whose start no earlier element's slot shares is itself kept.
   */
  lemma {:induction false} FirstKeptComplete(keep: Slot -> Option<Slot>, s: seq<Slot>, i: nat)
    requires i < |s| && keep(s[i]).Some?
    ensures keep(s[i]).value.start in StartsOf(FirstKept(keep, s))
    ensures (forall j :: 0 <= j < i && keep(s[j]).Some? ==> keep(s[j]).value.start != keep(s[i]).value.start)
      ==> keep(s[i]).value in FirstKept(keep, s)
    decreases |s|
  {
    var init := s[..|s| - 1];
    var kept := FirstKept(keep, init);
    var x := keep(s[i]).value;
    var r := FirstKept(keep, s);
    var y := keep(s[|s| - 1]);
    assert r == kept || (y.Some? && r == kept + [y.value]);
    if r != kept {
      assert r[..|kept|] == kept;
    }
    if i < |init| {
      assert init[i] == s[i];
      FirstKeptComplete(keep, init, i);
      StartsOfPrefix(kept, r);
      assert forall j :: 0 <= j < i ==> init[j] == s[j];
    } else if x.start in StartsOf(kept) {
      StartsOfPrefix(kept, r);
      var j := FirstKeptStartsSound(keep, init, x.start);
      assert s[j] == init[j] && j < i;
    } else {
      assert r == kept + [x];
      StartsOfLast(kept, x);
    }
  }

  lemma {:induction false} FirstKeptNone(keep: Slot -> Option<Slot>, s: seq<Slot>)
    requires forall i :: 0 <= i < |s| ==> keep(s[i]).None?
    ensures FirstKept(keep, s) == []
    decreases |s|
  {
    if s != [] {
      assert forall i :: 0 <= i < |s| - 1 ==> s[..|s| - 1][i] == s[i];
      FirstKeptNone(keep, s[..|s| - 1]);
    }
  }

  // ---------------------------------------------------------------------------
  // What `_find_overlap` promises

  lemma CountOnePositive(rs: Slot, cands: seq<CandidateSlot>, durationMinutes: nat)
    ensures CountOne(rs, cands, durationMinutes) > 0 <==> KeepOne(rs, cands, durationMinutes).Some?
  {
    if ParseRecruiter(rs).Some? {
      MatchCountPositive(ParseRecruiter(rs).value, cands, durationMinutes);
    }
  }

  lemma EmitExpandOne(rs: Slot, cands: seq<CandidateSlot>, durationMinutes: nat)
    ensures var k := KeepOne(rs, cands, durationMinutes);
      Emit(rs, cands, durationMinutes)
      == if k.Some? then Rep(k.value, CountOne(rs, cands, durationMinutes)) else []
  {
    CountOnePositive(rs, cands, durationMinutes);
  }

  lemma {:induction false} OverlappingExpand(recruiter: seq<Slot>, cands: seq<CandidateSlot>, durationMinutes: nat)
    ensures Overlapping(recruiter, cands, durationMinutes)
      == Expand(KeepFn(cands, durationMinutes), CountFn(cands, durationMinutes), recruiter)
    decreases |recruiter|
  {
    if recruiter != [] {
      var last := recruiter[|recruiter| - 1];
      OverlappingExpand(recruiter[..|recruiter| - 1], cands, durationMinutes);
      EmitExpandOne(last, cands, durationMinutes);
    }
  }

  /** Deduplicating the `overlapping` list gives exactly `Select`. */
  lemma DedupOverlapping(recruiter: seq<Slot>, cands: seq<CandidateSlot>, durationMinutes: nat)
    ensures Dedup(Overlapping(recruiter, cands, durationMinutes)) == Select(recruiter, cands, durationMinutes)
  {
    OverlappingExpand(recruiter, cands, durationMinutes);
    var keep, count := KeepFn(cands, durationMinutes), CountFn(cands, durationMinutes);
    forall i | 0 <= i < |recruiter| ensures count(recruiter[i]) > 0 <==> keep(recruiter[i]).Some? {
      CountOnePositive(recruiter[i], cands, durationMinutes);
    }
    DedupExpand(keep, count, recruiter);
  }

  /** No two returned slots share a start text. */
  lemma SelectDistinctStarts(recruiter: seq<Slot>, cands: seq<CandidateSlot>, durationMinutes: nat)
    ensures DistinctStarts(Select(recruiter, cands, durationMinutes))
  {
    FirstKeptDistinct(KeepFn(cands, durationMinutes), recruiter);
  }

  /**
   * The result is an order-preserving subsequence of the re-encoded
   * recruiter slots: element k comes from recruiter slot `idx[k]`, the
   * indices increase, and each of those slots parses and is matched.
   */
  lemma SelectIsSubsequence(recruiter: seq<Slot>, cands: seq<CandidateSlot>, durationMinutes: nat)
    returns (idx: seq<nat>)
    ensures var r := Select(recruiter, cands, durationMinutes);
      && |idx| == |r|
      && (forall k, l :: 0 <= k < l < |idx| ==> idx[k] < idx[l])
      && (forall k :: 0 <= k < |idx| ==>
            && idx[k] < |recruiter|
            && ParseRecruiter(recruiter[idx[k]]).Some?
            && Matched(ParseRecruiter(recruiter[idx[k]]).value, cands, durationMinutes)
            && r[k] == Normalize(ParseRecruiter(recruiter[idx[k]]).value))
  {
    var keep := KeepFn(cands, durationMinutes);
    FirstKeptSubsequence(keep, recruiter);
    idx := FirstKeptIndices(keep, recruiter);
  }

  /**
   * Every parsable recruiter slot that some candidate matches is represented
   * by its start text, and when no earlier matched slot shares that start the
   * slot itself is in the result: the first seen wins.
   */
  lemma SelectComplete(recruiter: seq<Slot>, cands: seq<CandidateSlot>, durationMinutes: nat, i: nat)
    requires i < |recruiter| && ParseRecruiter(recruiter[i]).Some?
    requires Matched(ParseRecruiter(recruiter[i]).value, cands, durationMinutes)
    ensures Normalize(ParseRecruiter(recruiter[i]).value).start in StartsOf(Select(recruiter, cands, durationMinutes))
    ensures (forall j :: 0 <= j < i && KeepOne(recruiter[j], cands, durationMinutes).Some?
               ==> KeepOne(recruiter[j], cands, durationMinutes).value.start
                   != Normalize(ParseRecruiter(recruiter[i]).value).start)
            ==> Normalize(ParseRecruiter(recruiter[i]).value) in Select(recruiter, cands, durationMinutes)
  {
    FirstKeptComplete(KeepFn(cands, durationMinutes), recruiter, i);
  }

  /** With no candidate slots nothing matches, so nothing is returned. */
  lemma SelectNoCandidates(recruiter: seq<Slot>, durationMinutes: nat)
    ensures Select(recruiter, [], durationMinutes) == []
  {
    var keep := KeepFn([], durationMinutes);
    forall i | 0 <= i < |recruiter| ensures keep(recruiter[i]).None? {
      if ParseRecruiter(recruiter[i]).Some? {
        assert !Matched(ParseRecruiter(recruiter[i]).value, [], durationMinutes);
      }
    }
    FirstKeptNone(keep, recruiter);
  }

  // ---------------------------------------------------------------------------
  // `_find_overlap`

  /** The `if`/`elif` chain of `_find_overlap` for one pair of slots. */
  method TestPair(span: (Instant, Instant), cs: CandidateSlot, durationMinutes: nat) returns (matched: bool)
    ensures matched == CandidateMatches(span, cs, durationMinutes)
  {
    var csStart := CandidateStart(cs);
    var csEnd := CandidateEnd(cs, durationMinutes);
    matched := false;
    if csStart.Some? {
      var s, e := csStart.value, csEnd.value;
      if Day(span.0) == Day(s) && Hour(span.0) == Hour(s) {
        matched := true;
      } else if Weekday(span.0) == Weekday(s) && Hour(span.0) == Hour(s) {
        matched := true;
      } else if Day(span.0) == Day(s) && Hour(s) == 0 {
        matched := true;
      } else {
        var overlapStart := Max(span.0, s);
        var overlapEnd := Min(span.1, e);
        if overlapEnd - overlapStart >= durationMinutes * 60 {
          matched := true;
        }
      }
    }
  }

  /** The inner loop of `_find_overlap`: one entry per matching candidate slot. */
  method AppendMatches(overlapping: seq<Slot>, span: (Instant, Instant), cands: seq<CandidateSlot>,
                       durationMinutes: nat)
    returns (result: seq<Slot>)
    ensures result == overlapping + Rep(Normalize(span), MatchCount(span, cands, durationMinutes))
  {
    var entry := Normalize(span);
    result := overlapping;
    for j := 0 to |cands|
      invariant result == overlapping + Rep(entry, MatchCount(span, cands[..j], durationMinutes))
    {
      assert cands[..j + 1][..j] == cands[..j];
      var matched := TestPair(span, cands[j], durationMinutes);
      if matched {
        assert Rep(entry, MatchCount(span, cands[..j], durationMinutes)) + [entry]
            == Rep(entry, MatchCount(span, cands[..j + 1], durationMinutes));
        result := result + [entry];
      }
    }
    assert cands[..|cands|] == cands;
  }

  /** One pass of the outer loop: an unparsable recruiter slot is skipped. */
  method AppendSlot(overlapping: seq<Slot>, rs: Slot, cands: seq<CandidateSlot>, durationMinutes: nat)
    returns (result: seq<Slot>)
    ensures result == overlapping + Emit(rs, cands, durationMinutes)
  {
    var span := ParseRecruiter(rs);
    if span.Some? {
      result := AppendMatches(overlapping, span.value, cands, durationMinutes);
    } else {
      result := overlapping;
    }
  }

  /** The outer loop of `_find_overlap`: the `overlapping` list. */
  method CollectOverlapping(recruiter: seq<Slot>, cands: seq<CandidateSlot>, durationMinutes: nat)
    returns (overlapping: seq<Slot>)
    ensures overlapping == Overlapping(recruiter, cands, durationMinutes)
  {
    overlapping := [];
    for i := 0 to |recruiter|
      invariant overlapping == Overlapping(recruiter[..i], cands, durationMinutes)
    {
      OverlappingPrefix(recruiter, i, cands, durationMinutes);
      overlapping := AppendSlot(overlapping, recruiter[i], cands, durationMinutes);
    }
    assert recruiter[..|recruiter|] == recruiter;
  }

  lemma OverlappingPrefix(recruiter: seq<Slot>, i: nat, cands: seq<CandidateSlot>, durationMinutes: nat)
    requires i < |recruiter|
    ensures Overlapping(recruiter[..i + 1], cands, durationMinutes)
      == Overlapping(recruiter[..i], cands, durationMinutes) + Emit(recruiter[i], cands, durationMinutes)
  {
    assert recruiter[..i + 1][..i] == recruiter[..i];
  }

  /** The `seen`/`unique` loop of `_find_overlap`. */
  method DedupByStart(overlapping: seq<Slot>) returns (unique: seq<Slot>)
    ensures unique == Dedup(overlapping)
  {
    var seen: set<string> := {};
    unique := [];
    for k := 0 to |overlapping|
      invariant unique == DedupOnto([], overlapping[..k])
      invariant seen == StartsOf(unique)
    {
      assert overlapping[..k + 1][..k] == overlapping[..k];
      var s := overlapping[k];
      if s.start !in seen {
        StartsOfLast(unique, s);
        seen := seen + {s.start};
        unique := unique + [s];
      }
    }
    assert overlapping[..|overlapping|] == overlapping;
  }

  /** `SchedulerAgent._find_overlap`. */
  method FindOverlap(recruiter: seq<Slot>, cands: seq<CandidateSlot>, durationMinutes: nat)
    returns (unique: seq<Slot>)
    ensures unique == Dedup(Overlapping(recruiter, cands, durationMinutes))
    ensures unique == Select(recruiter, cands, durationMinutes)
  {
    var overlapping := CollectOverlapping(recruiter, cands, durationMinutes);
    unique := DedupByStart(overlapping);
    DedupOverlapping(recruiter, cands, durationMinutes);
  }
}
