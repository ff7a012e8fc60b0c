/**
 * The interview-negotiation engine of scheduler_agent.py: `InterviewRequest`
 * and `SchedulerAgent`, which keeps the open requests in a dictionary keyed
 * by request id and moves each through `pending`, `awaiting_candidate`,
 * `confirmed`, `cancelled` and `needs_human` as replies come in.
 *
 * A request is a value stored in the agent's map; each operation computes
 * the request's new value and stores it back under its id. The emails the
 * agent sends go to a `MockEmailClient`. Everything the agent reads from
 * outside — the clock, the busy list, the model's answer, the outcome of the
 * calendar insert and the fixed wording around the candidate's reply in
 * the prompt — comes in through a `World`.
 */
module Agent {
  import opened Wrappers
  import opened Text
  import opened Time
  import opened Calendar
  import opened Matcher
  import opened Email
  import opened Llm
  import opened Transport

  datatype Status = Pending | AwaitingCandidate | Confirmed | Cancelled | NeedsHuman

  /** One `{from, body}` entry of `conversation_history`. */
  datatype Entry = Entry(sender: string, body: string)

  /** `InterviewRequest`. */
  datatype InterviewRequest = InterviewRequest(
    recruiterEmail: string,
    candidateEmail: string,
    jobTitle: string,
    durationMinutes: nat,
    history: seq<Entry>,
    recruiterSlots: seq<Slot>,
    candidateSlots: seq<CandidateSlot>,
    confirmedSlot: Option<Slot>,
    status: Status)

  function NewRequest(recruiterEmail: string, candidateEmail: string, jobTitle: string,
                      durationMinutes: nat): InterviewRequest
  {
    InterviewRequest(recruiterEmail, candidateEmail, jobTitle, durationMinutes, [], [], [], None, Pending)
  }

  /** The dictionaries the agent's handlers return, by their `status` key. */
  datatype Outcome =
    | Failed(message: string)
    | Booked(slot: Slot, calendarEvent: Option<EventResult>)
    | Declined
    | AlternativesSent
    | Escalated
    | AwaitingResponse

  /** What one handler call reads from outside the agent. */
  datatype World = World(now: Instant, busy: seq<Busy>, insert: InsertOutcome, apiReply: LlmReply,
                         promptHead: string, promptRules: string)

  /** A confirmed request always has the slot it was confirmed for. */
  predicate WellFormed(r: InterviewRequest) {
    r.status == Confirmed ==> r.confirmedSlot.Some?
  }

  /**
   * What no handler changes: who and what the request is for, its history,
   * and the recruiter slots already offered, which can only be added to.
   */
  predicate Progress(r: InterviewRequest, r': InterviewRequest) {
    && r'.recruiterEmail == r.recruiterEmail
    && r'.candidateEmail == r.candidateEmail
    && r'.jobTitle == r.jobTitle
    && r'.durationMinutes == r.durationMinutes
    && r'.history == r.history
    && r.recruiterSlots <= r'.recruiterSlots
  }

  // ---------------------------------------------------------------------------
  // The request id

  /** `candidate_email.split('@')[0]`: the text before the first '@'. */
  function LocalPart(email: string): (r: string)
    ensures r <= email && '@' !in r
    ensures |r| < |email| ==> email[|r|] == '@'
    decreases |email|
  {
    if email == [] || email[0] == '@' then "" else [email[0]] + LocalPart(email[1..])
  }

  /** `strftime('%Y%m%d%H%M%S')`, with the day written as its day number. */
  function IdStamp(t: Instant): (r: string)
    ensures AllTokenChars(r)
  {
    var d := DateText(Day(t));
    var h := Two(Hour(t));
    var m := Two(MinuteOf(t));
    var s := Two(SecondOf(t));
    assert AllTokenChars(d) && AllTokenChars(h) && AllTokenChars(m) && AllTokenChars(s) by {
      DigitsAreTokenChars(d);
      DigitsAreTokenChars(h);
      DigitsAreTokenChars(m);
      DigitsAreTokenChars(s);
    }
    TokenCharsConcat(d, h);
    TokenCharsConcat(d + h, m);
    TokenCharsConcat(d + h + m, s);
    d + h + m + s
  }

  lemma DigitsAreTokenChars(s: string)
    requires AllDigits(s)
    ensures AllTokenChars(s)
  {
  }

  lemma TokenCharsConcat(a: string, b: string)
    requires AllTokenChars(a) && AllTokenChars(b)
    ensures AllTokenChars(a + b)
  {
    assert forall k :: 0 <= k < |a + b| ==> (a + b)[k] == if k < |a| then a[k] else b[k - |a|];
  }

  /** The id line 83 builds, from the raw local part. */
  function RequestIdAsWritten(stamp: string, candidateEmail: string): string {
    "req_" + stamp + "_" + LocalPart(candidateEmail)
  }

  /** Every character outside `[A-Za-z0-9_-]` replaced by '_'. */
  function Sanitize(s: string): (r: string)
    ensures |r| == |s| && AllTokenChars(r)
    ensures forall i :: 0 <= i < |s| ==> (IsTokenChar(s[i]) <==> r[i] == s[i])
  {
    seq(|s|, i requires 0 <= i < |s| => if IsTokenChar(s[i]) then s[i] else '_')
  }

  /** The id the rest of the model uses: line 83 with the local part sanitised. */
  function RequestId(stamp: string, candidateEmail: string): string {
    "req_" + stamp + "_" + Sanitize(LocalPart(candidateEmail))
  }

  /** Every id the agent builds is one the tag pattern reads back. */
  lemma RequestIdIsToken(now: Instant, candidateEmail: string)
    ensures IsReqToken(RequestId(IdStamp(now), candidateEmail))
  {
    var stamp := IdStamp(now);
    var id := RequestId(stamp, candidateEmail);
    var rest := stamp + "_" + Sanitize(LocalPart(candidateEmail));
    assert id == "req_" + rest;
    assert id[..4] == "req_" && id[4..] == rest;
    TokenCharsConcat(stamp, "_");
    TokenCharsConcat(stamp + "_", Sanitize(LocalPart(candidateEmail)));
  }

  /** Where the local part is already token characters the two ids agree. */
  lemma RequestIdKeepsTokenLocalParts(stamp: string, candidateEmail: string)
    requires AllTokenChars(LocalPart(candidateEmail))
    ensures RequestId(stamp, candidateEmail) == RequestIdAsWritten(stamp, candidateEmail)
  {
    var l := LocalPart(candidateEmail);
    assert Sanitize(l) == l;
  }

  /**
   * As written, an id whose local part holds a character outside the token
   * class, such as the '.' of "jane.doe@example.com", never comes back out
   * of its own tag line.
   */
  lemma RequestIdAsWrittenLost(stamp: string, candidateEmail: string, k: nat)
    requires k < |LocalPart(candidateEmail)| && !IsTokenChar(LocalPart(candidateEmail)[k])
    ensures ExtractRequestId(TagLine(RequestIdAsWritten(stamp, candidateEmail)))
      != Some(RequestIdAsWritten(stamp, candidateEmail))
  {
    var id := RequestIdAsWritten(stamp, candidateEmail);
    var l := LocalPart(candidateEmail);
    assert id[|stamp| + 5 + k] == l[k];
    NeverExtracted(TagLine(id), id, |stamp| + 5 + k);
  }

  /** No text yields an id with a character outside the token class after its "req_". */
  lemma NeverExtracted(text: string, id: string, j: nat)
    requires 4 <= j < |id| && !IsTokenChar(id[j])
    ensures ExtractRequestId(text) != Some(id)
  {
    if ExtractRequestId(text) == Some(id) {
      ExtractShape(text);
      assert false;
    }
  }

  /** The local part of "a@b" is `a`. */
  lemma {:induction false} LocalPartOf(a: string, b: string)
    requires '@' !in a
    ensures LocalPart(a + "@" + b) == a
    decreases |a|
  {
    if a != [] {
      LocalPartOf(a[1..], b);
      assert (a + "@" + b)[1..] == a[1..] + "@" + b;
    }
  }

  /** So an address such as "jane.doe@example.com", with a '.' before the '@', loses its id. */
  lemma DottedIdLost(stamp: string, name: string, domain: string, k: nat)
    requires '@' !in name && k < |name| && name[k] == '.'
    ensures ExtractRequestId(TagLine(RequestIdAsWritten(stamp, name + "@" + domain)))
      != Some(RequestIdAsWritten(stamp, name + "@" + domain))
  {
    LocalPartOf(name, domain);
    RequestIdAsWrittenLost(stamp, name + "@" + domain, k);
  }

  // ---------------------------------------------------------------------------
  // The emails the agent sends

  /** The most slots one availability request lists. */
  const MaxOffered: nat := 6

  /** `slots[:6]`. */
  function Offered(slots: seq<Slot>): (r: seq<Slot>)
    ensures |r| <= MaxOffered && r <= slots
    ensures |slots| <= MaxOffered ==> r == slots
  {
    if |slots| <= 6 then slots else slots[..6]
  }

  /**
   * One line of the slot list: the parsed start (standing for its
   * `strftime` display) and the duration, or both raw texts when the start
   * does not parse.
   */
  function SlotLine(s: Slot, durationMinutes: nat): string {
    match ParseDt(s.start)
    case Some(t) => ParsedSlotLine(t, durationMinutes)
    case None => RawSlotLine(s)
  }

  function ParsedSlotLine(t: Instant, durationMinutes: nat): string {
    "  \U{2022} " + Iso(t) + " (" + Digits(durationMinutes) + " mins)"
  }

  function RawSlotLine(s: Slot): string {
    "  \U{2022} " + s.start + " \U{2013} " + s.end
  }

  function SlotLines(slots: seq<Slot>, durationMinutes: nat): (r: seq<string>)
    ensures |r| == |slots|
    ensures forall i :: 0 <= i < |slots| ==> r[i] == SlotLine(slots[i], durationMinutes)
  {
    seq(|slots|, i requires 0 <= i < |slots| => SlotLine(slots[i], durationMinutes))
  }

  /** `chr(10).join(lines)`. */
  function JoinOrEmpty(lines: seq<string>): string {
    if lines == [] then "" else JoinLines(lines)
  }

  /** The rule of 30 box-drawing characters around the tag line. */
  const Rule: string := "\U{2500}\U{2500}\U{2500}\U{2500}\U{2500}\U{2500}\U{2500}\U{2500}\U{2500}\U{2500}" + "\U{2500}\U{2500}\U{2500}\U{2500}\U{2500}\U{2500}\U{2500}\U{2500}\U{2500}\U{2500}" + "\U{2500}\U{2500}\U{2500}\U{2500}\U{2500}\U{2500}\U{2500}\U{2500}\U{2500}\U{2500}"

  // The fixed wording is written in short pieces, so that the verifier can
  // see piece by piece which characters it holds.

  const RetryOpening: string :=
    "Thank you " + "for your " + "response! " + "Unfortunate" + "ly those " + "times " + "don't "
    + "work. Here " + "are some " + "additional " + "options:"

  const Invitation: string := "We'd love " + "to " + "schedule " + "your " + "interview " + "for the "

  function Opening(jobTitle: string, retry: bool): string {
    if retry then RetryOpening else Invitation + jobTitle + " position."
  }

  const AskLine: string :=
    "Please " + "reply with " + "which time " + "works best " + "for you, " + "or suggest " + "an "
    + "alternative" + ":"

  const Closing: string :=
    "Simply " + "reply to " + "this email " + "with your " + "preferred " + "time \U{2014} our "
    + "scheduling " + "assistant " + "will take " + "care of " + "the rest!\n\n" + "Best "
    + "regards,\n" + "Interview " + "Scheduling " + "Assistant"

  /** The body of an availability request up to its tag line. */
  function BodyBeforeTag(jobTitle: string, retry: bool, lines: seq<string>): string {
    "Hi,\n\n" + Opening(jobTitle, retry) + AfterOpening(lines)
  }

  /** The body after its opening sentence, up to the tag line. */
  function AfterOpening(lines: seq<string>): string {
    "\n\n" + AskLine + "\n\n" + JoinOrEmpty(lines) + "\n\n" + Closing + "\n\n" + Rule + "\n"
  }

  /** The body `_send_availability_request` sends. */
  function AvailabilityBody(requestId: string, jobTitle: string, retry: bool, durationMinutes: nat,
                            slots: seq<Slot>): string
  {
    BodyBeforeTag(jobTitle, retry, SlotLines(Offered(slots), durationMinutes)) + TagLine(requestId) + "\n" + Rule
  }

  function AvailabilityEmail(requestId: string, r: InterviewRequest, slots: seq<Slot>, retry: bool,
                             sentAt: string): SentEmail
  {
    SentEmail(r.candidateEmail, "Interview Scheduling \U{2013} " + r.jobTitle,
              AvailabilityBody(requestId, r.jobTitle, retry, r.durationMinutes, slots), None, sentAt)
  }

  /** No start or end text of the slots holds a '['. */
  predicate BracketFree(slots: seq<Slot>) {
    forall i :: 0 <= i < |slots| ==> '[' !in slots[i].start && '[' !in slots[i].end
  }

  /** The confirmation's date: the parsed start when both ends parse, else the start text. */
  function SlotDisplay(slot: Slot): string {
    match (ParseDt(slot.start), ParseDt(slot.end))
    case (Some(t), Some(_)) => Iso(t)
    case _ => slot.start
  }

  /** The meeting line, present when the event has a non-empty `meet_link`. */
  function MeetLine(event: EventResult): string {
    if event.Created? && event.meetLink.Some? && event.meetLink.value != "" then
      "\nGoogle Meet Link: " + event.meetLink.value
    else ""
  }

  /** `_send_confirmation`: the candidate's email, then the recruiter's. */
  function ConfirmationEmails(r: InterviewRequest, slot: Slot, event: EventResult, sentAt: string): seq<SentEmail> {
    ConfirmationsShowing(r, SlotDisplay(slot), event, sentAt)
  }

  /** The two confirmations, with the slot shown as `display`. */
  function ConfirmationsShowing(r: InterviewRequest, display: string, event: EventResult, sentAt: string): seq<SentEmail> {
    [CandidateConfirmation(r, display, event, sentAt), RecruiterConfirmation(r, display, event, sentAt)]
  }

  function CandidateConfirmation(r: InterviewRequest, display: string, event: EventResult, sentAt: string): SentEmail {
    SentEmail(r.candidateEmail, "\U{2705} Interview Confirmed \U{2013} " + r.jobTitle,
              "  Role     : " + r.jobTitle + "\n  Date     : " + display
              + "\n  Duration : " + Digits(r.durationMinutes) + " minutes" + MeetLine(event), None, sentAt)
  }

  function RecruiterConfirmation(r: InterviewRequest, display: string, event: EventResult, sentAt: string): SentEmail {
    SentEmail(r.recruiterEmail, "\U{2705} Interview Booked \U{2013} " + r.jobTitle + " | " + display,
              "  Role      : " + r.jobTitle + "\n  Candidate : " + r.candidateEmail
              + "\n  Date      : " + display + "\n  Duration  : " + Digits(r.durationMinutes) + " minutes"
              + MeetLine(event), None, sentAt)
  }

  function Particulars(r: InterviewRequest): string {
    "  Candidate : " + r.candidateEmail + "\n  Position  : " + r.jobTitle
  }

  /** `_send_cancellation_notice`. */
  function CancellationEmail(r: InterviewRequest, sentAt: string): SentEmail {
    SentEmail(r.recruiterEmail, "Interview Declined \U{2013} " + r.jobTitle, Particulars(r), None, sentAt)
  }

  /** `_escalate_to_recruiter`. */
  function EscalationEmail(r: InterviewRequest, sentAt: string): SentEmail {
    SentEmail(r.recruiterEmail, "\U{26A0}\U{FE0F} Manual Scheduling Required \U{2013} " + r.jobTitle,
              Particulars(r), None, sentAt)
  }

  lemma NoBracketConcat(a: string, b: string)
    requires '[' !in a && '[' !in b
    ensures '[' !in a + b
  {
  }

  lemma RetryOpeningNoBracket() ensures '[' !in RetryOpening { }

  lemma InvitationNoBracket() ensures '[' !in Invitation { }

  lemma AskLineNoBracket() ensures '[' !in AskLine { }

  lemma ClosingNoBracket() ensures '[' !in Closing { }

  lemma RuleNoBracket() ensures '[' !in Rule { }

  lemma OpeningNoBracket(jobTitle: string, retry: bool)
    requires retry || '[' !in jobTitle
    ensures '[' !in Opening(jobTitle, retry)
  {
    if retry {
      RetryOpeningNoBracket();
    } else {
      InvitationNoBracket();
      NoBracketConcat(Invitation, jobTitle);
      NoBracketConcat(Invitation + jobTitle, " position.");
    }
  }

  lemma SlotLineNoBracket(s: Slot, durationMinutes: nat)
    requires '[' !in s.start && '[' !in s.end
    ensures '[' !in SlotLine(s, durationMinutes)
  {
    match ParseDt(s.start)
    case Some(t) => ParsedSlotLineNoBracket(t, durationMinutes);
    case None => RawSlotLineNoBracket(s);
  }

  lemma ParsedSlotLineNoBracket(t: Instant, durationMinutes: nat)
    ensures '[' !in ParsedSlotLine(t, durationMinutes)
  {
    var bullet := "  \U{2022} ";
    var d := Digits(durationMinutes);
    IsoNoBracket(t);
    DigitsHaveNo(d, '[');
    NoBracketConcat(bullet, Iso(t));
    NoBracketConcat(bullet + Iso(t), " (");
    NoBracketConcat(bullet + Iso(t) + " (", d);
    NoBracketConcat(bullet + Iso(t) + " (" + d, " mins)");
  }

  lemma RawSlotLineNoBracket(s: Slot)
    requires '[' !in s.start && '[' !in s.end
    ensures '[' !in RawSlotLine(s)
  {
    var bullet := "  \U{2022} ";
    NoBracketConcat(bullet, s.start);
    NoBracketConcat(bullet + s.start, " \U{2013} ");
    NoBracketConcat(bullet + s.start + " \U{2013} ", s.end);
  }

  lemma {:induction false} JoinNoBracket(lines: seq<string>)
    requires forall i :: 0 <= i < |lines| ==> '[' !in lines[i]
    ensures '[' !in JoinOrEmpty(lines)
    decreases |lines|
  {
    if |lines| > 1 {
      JoinNoBracket(lines[1..]);
      assert JoinOrEmpty(lines[1..]) == JoinLines(lines[1..]);
      NoBracketConcat(lines[0] + "\n", JoinLines(lines[1..]));
    }
  }

  lemma BodyBeforeTagNoBracket(jobTitle: string, retry: bool, lines: seq<string>)
    requires retry || '[' !in jobTitle
    requires forall i :: 0 <= i < |lines| ==> '[' !in lines[i]
    ensures '[' !in BodyBeforeTag(jobTitle, retry, lines)
  {
    OpeningNoBracket(jobTitle, retry);
    AfterOpeningNoBracket(lines);
    NoBracketConcat("Hi,\n\n", Opening(jobTitle, retry));
    NoBracketConcat("Hi,\n\n" + Opening(jobTitle, retry), AfterOpening(lines));
  }

  lemma AfterOpeningNoBracket(lines: seq<string>)
    requires forall i :: 0 <= i < |lines| ==> '[' !in lines[i]
    ensures '[' !in AfterOpening(lines)
  {
    JoinNoBracket(lines);
    AskLineNoBracket();
    ClosingNoBracket();
    RuleNoBracket();
    var j := JoinOrEmpty(lines);
    NoBracketConcat("\n\n", AskLine);
    NoBracketConcat("\n\n" + AskLine + "\n\n", j);
    NoBracketConcat("\n\n" + AskLine + "\n\n" + j + "\n\n", Closing);
    NoBracketConcat("\n\n" + AskLine + "\n\n" + j + "\n\n" + Closing + "\n\n", Rule);
  }

  /** What follows the job title in a first availability request, up to the tag line. */
  function AfterTitle(lines: seq<string>): string {
    " position." + AfterOpening(lines)
  }

  lemma BodyAroundTitle(jobTitle: string, lines: seq<string>)
    ensures BodyBeforeTag(jobTitle, false, lines) == "Hi,\n\n" + Invitation + jobTitle + AfterTitle(lines)
  {
    var h, t, w := "Hi,\n\n", Invitation + jobTitle, AfterOpening(lines);
    ConcatAssoc(h, t + " position.", w);
    ConcatAssoc(t, " position.", w);
    ConcatAssoc(h, t, " position." + w);
    ConcatAssoc(h, Invitation, jobTitle);
  }

  lemma AfterTitleNoBracket(lines: seq<string>)
    requires forall i :: 0 <= i < |lines| ==> '[' !in lines[i]
    ensures '[' !in AfterTitle(lines)
  {
    AfterOpeningNoBracket(lines);
    NoBracketConcat(" position.", AfterOpening(lines));
  }

  /** A tag cannot run on from the job title past the '.' of " position.". */
  lemma AfterTitleCutsTags(lines: seq<string>)
    ensures |AfterTitle(lines)| > 9 && !TagChar(AfterTitle(lines)[9])
    ensures forall k :: 0 <= k < 9 ==> AfterTitle(lines)[k] != ']'
  {
    var t := AfterTitle(lines);
    assert t[..10] == " position.";
    assert t[9] == t[..10][9];
    assert forall k :: 0 <= k < 9 ==> t[k] == t[..10][k];
  }

  /**
   * Nothing before the tag line of an availability request opens a tag:
   * the fixed wording and the slot lines hold no '[', and a tag in a
   * first request's job title would have to end inside the title.
   */
  lemma BodyBeforeTagNoTag(jobTitle: string, retry: bool, lines: seq<string>)
    requires retry || NoTag(jobTitle)
    requires forall i :: 0 <= i < |lines| ==> '[' !in lines[i]
    ensures NoTag(BodyBeforeTag(jobTitle, retry, lines))
  {
    var b := BodyBeforeTag(jobTitle, retry, lines);
    if retry {
      BodyBeforeTagNoBracket(jobTitle, retry, lines);
      assert forall k :: 0 <= k < |b| ==> b[k] in b;
      NoTagBefore(b, |b|);
    } else {
      InvitationNoBracket();
      NoBracketConcat("Hi,\n\n", Invitation);
      AfterTitleNoBracket(lines);
      AfterTitleCutsTags(lines);
      NoTagJoin("Hi,\n\n" + Invitation, jobTitle, AfterTitle(lines), 9);
      BodyAroundTitle(jobTitle, lines);
    }
  }

  /**
   * Whatever the slots and the retry flag, an availability request lists
   * at most six slots, the first six in order, and carries its id in a tag
   * line the extractor reads back, unless the job title of a first request
   * holds a tag of its own.
   */
  lemma AvailabilityBodyCarriesId(requestId: string, jobTitle: string, retry: bool, durationMinutes: nat,
                                  slots: seq<Slot>)
    requires IsReqToken(requestId) && (retry || NoTag(jobTitle)) && BracketFree(slots)
    ensures ExtractRequestId(AvailabilityBody(requestId, jobTitle, retry, durationMinutes, slots)) == Some(requestId)
  {
    var lines := SlotLines(Offered(slots), durationMinutes);
    forall i | 0 <= i < |lines| ensures '[' !in lines[i] {
      SlotLineNoBracket(Offered(slots)[i], durationMinutes);
    }
    var p := BodyBeforeTag(jobTitle, retry, lines);
    BodyBeforeTagNoTag(jobTitle, retry, lines);
    TagRoundTrip(p, requestId, "\n" + Rule);
    AppendAssoc(p, TagLine(requestId), "\n", Rule);
  }

  lemma AppendAssoc(a: string, b: string, c: string, d: string)
    ensures a + b + c + d == a + b + (c + d)
  {
  }

  /** The slot list of an availability request: the first `min(6, |slots|)` slots, one line each. */
  lemma AvailabilityListsFirstSix(slots: seq<Slot>, durationMinutes: nat)
    ensures var lines := SlotLines(Offered(slots), durationMinutes);
      && |lines| == (if |slots| <= MaxOffered then |slots| else MaxOffered)
      && forall i :: 0 <= i < |lines| ==> lines[i] == SlotLine(slots[i], durationMinutes)
  {
  }

  // ---------------------------------------------------------------------------
  // Calendar and language model, as the agent calls them

  /** What `calendar.get_available_slots` returns for each kind of calendar client. */
  ghost function Offer(backend: CalendarBackend, now: Instant, busy: seq<Busy>, durationMinutes: nat,
                       daysAhead: nat, exclude: seq<Slot>): seq<Slot>
  {
    match backend
    case GoogleCalendar => GeneratedSlots(now, busy, durationMinutes, daysAhead, exclude)
    case MockCalendar => MockSchedule(now, durationMinutes)
  }

  lemma SlotsAtBracketFree(starts: seq<Instant>, durationMinutes: nat)
    ensures BracketFree(SlotsAt(starts, durationMinutes))
  {
    var r := SlotsAt(starts, durationMinutes);
    forall i | 0 <= i < |r| ensures '[' !in r[i].start && '[' !in r[i].end {
      IsoNoBracket(starts[i]);
      IsoNoBracket(SlotEnd(starts[i], durationMinutes));
    }
  }

  /** Every slot either calendar hands out is a pair of ISO stamps, so none holds a '['. */
  lemma OfferBracketFree(backend: CalendarBackend, now: Instant, busy: seq<Busy>, durationMinutes: nat,
                         daysAhead: nat, exclude: seq<Slot>)
    ensures BracketFree(Offer(backend, now, busy, durationMinutes, daysAhead, exclude))
  {
    match backend
    case GoogleCalendar =>
      var ok := Test(durationMinutes, busy, exclude);
      SlotsAtBracketFree(Scan(ok, now, FirstStop(ok, now, Horizon(now, daysAhead), 0)), durationMinutes);
    case MockCalendar =>
      SlotsAtBracketFree(MockCapped(now), durationMinutes);
  }

  /** The mock calendar always has at least four slots to offer, whatever is excluded. */
  lemma MockOfferNonEmpty(now: Instant, busy: seq<Busy>, durationMinutes: nat, daysAhead: nat, exclude: seq<Slot>)
    ensures |Offer(MockCalendar, now, busy, durationMinutes, daysAhead, exclude)| >= 4
  {
    MockScheduleShape(now, durationMinutes);
  }

  /** `calendar.create_event` of either client; the mock's event id uses the clock. */
  function BookEvent(backend: CalendarBackend, world: World): (e: EventResult)
    ensures backend == MockCalendar ==> e.Created? && e.meetLink == Some(MockMeetLink)
    ensures backend == GoogleCalendar ==> (e.EventError? <==> world.insert.InsertRaised?)
  {
    match backend
    case GoogleCalendar => CreateEvent(world.insert)
    case MockCalendar => MockCreateEvent(IdStamp(world.now))
  }

  /** `_extract_availability_with_llm`: the model's reading of the reply, or "unclear". */
  function Extracted(llm: ClientMode, emailBody: string, world: World): Extraction {
    ReadReply(Complete(llm, AgentPrompt(world.promptHead, emailBody, world.promptRules), world.apiReply))
  }

  /** Driven by the agent, the stub always reads a reply as the two-slot availability answer. */
  lemma MockExtraction(emailBody: string, world: World)
    ensures Extracted(MockMode, emailBody, world).action == ProvideAvailability
    ensures Extracted(MockMode, emailBody, world).slots == AvailabilitySlots()
  {
    MockReplyForAgent(world.promptHead, emailBody, world.promptRules, world.apiReply);
  }

  // ---------------------------------------------------------------------------
  // What each handler does to one request

  /** The emails a handler sends, by the helper that sends them. */
  datatype Notice =
    | AvailabilityRequest(requestId: string, request: InterviewRequest, slots: seq<Slot>, retry: bool)
    | ConfirmationNotice(request: InterviewRequest, slot: Slot, event: EventResult)
    | CancellationNotice(request: InterviewRequest)
    | EscalationNotice(request: InterviewRequest)

  /** The email records one helper call appends to `sent_emails`. */
  function Render(n: Notice, sentAt: string): (r: seq<SentEmail>)
    ensures n.ConfirmationNotice? ==> |r| == 2 && r[0].to == n.request.candidateEmail && r[1].to == n.request.recruiterEmail
    ensures n.AvailabilityRequest? ==> |r| == 1 && r[0].to == n.request.candidateEmail
    ensures n.CancellationNotice? || n.EscalationNotice? ==> |r| == 1 && r[0].to == n.request.recruiterEmail
  {
    match n
    case AvailabilityRequest(id, req, slots, retry) => [AvailabilityEmail(id, req, slots, retry, sentAt)]
    case ConfirmationNotice(req, slot, event) => ConfirmationEmails(req, slot, event, sentAt)
    case CancellationNotice(req) => [CancellationEmail(req, sentAt)]
    case EscalationNotice(req) => [EscalationEmail(req, sentAt)]
  }

  function RenderAll(ns: seq<Notice>, sentAt: string): seq<SentEmail>
    decreases |ns|
  {
    if ns == [] then [] else RenderAll(ns[..|ns| - 1], sentAt) + Render(ns[|ns| - 1], sentAt)
  }

  /** A confirmation notice renders as the two confirmations showing the slot's display text. */
  lemma RenderConfirmation(r: InterviewRequest, slot: Slot, event: EventResult, sentAt: string)
    ensures Render(ConfirmationNotice(r, slot, event), sentAt) == ConfirmationsShowing(r, SlotDisplay(slot), event, sentAt)
  {
  }

  /** A handler's new request, its return value and the emails it sends, in order. */
  datatype Effect = Effect(request: InterviewRequest, outcome: Outcome, sent: seq<Notice>)

  /**
   * `_handle_no_overlap`: new slots (`alternatives`, fetched excluding the
   * ones already offered) are appended and offered; none escalates.
   */
  function NoOverlapEffect(requestId: string, r: InterviewRequest, alternatives: seq<Slot>): Effect {
    if alternatives != [] then
      var r' := r.(recruiterSlots := r.recruiterSlots + alternatives);
      Effect(r', AlternativesSent, [AvailabilityRequest(requestId, r', alternatives, true)])
    else
      var r' := r.(status := NeedsHuman);
      Effect(r', Escalated, [EscalationNotice(r')])
  }

  /** The booking branch of `_process_candidate_availability`. */
  function BookEffect(r: InterviewRequest, slot: Slot, event: EventResult): Effect {
    var r' := r.(confirmedSlot := Some(slot), status := Confirmed);
    Effect(r', Booked(slot, Some(event)), [ConfirmationNotice(r', slot, event)])
  }

  /** `_process_candidate_availability`. */
  function ProcessEffect(requestId: string, r: InterviewRequest, cands: seq<CandidateSlot>,
                         alternatives: seq<Slot>, event: EventResult): Effect
  {
    var r1 := r.(candidateSlots := cands);
    if cands == [] then NoOverlapEffect(requestId, r1, alternatives)
    else
      var overlap := Select(r1.recruiterSlots, cands, r1.durationMinutes);
      if overlap != [] then BookEffect(r1, overlap[0], event)
      else NoOverlapEffect(requestId, r1, alternatives)
  }

  /** `_confirm_booking`. */
  function ConfirmEffect(r: InterviewRequest, event: EventResult): Effect {
    match r.confirmedSlot
    case Some(slot) =>
      var r' := r.(status := Confirmed);
      Effect(r', Booked(slot, None), [ConfirmationNotice(r', slot, event)])
    case None => Effect(r, Failed("No slot to confirm"), [])
  }

  /** The `decline` branch of `handle_email_reply`. */
  function DeclineEffect(r: InterviewRequest): Effect {
    var r' := r.(status := Cancelled);
    Effect(r', Declined, [CancellationNotice(r')])
  }

  /** The dispatch of `handle_email_reply` on the extracted action, for a request whose history already has the reply. */
  function ReplyEffect(requestId: string, r: InterviewRequest, x: Extraction, alternatives: seq<Slot>,
                       event: EventResult): Effect
  {
    match x.action
    case ProvideAvailability => ProcessEffect(requestId, r, x.slots, alternatives, event)
    case Confirm => ConfirmEffect(r, event)
    case Decline => DeclineEffect(r)
    case RequestOtherTimes => NoOverlapEffect(requestId, r, alternatives)
    case Unrecognised(_) =>
      if x.slots != [] then ProcessEffect(requestId, r, x.slots, alternatives, event)
      else Effect(r, AwaitingResponse, [])
  }

  /** The whole of `handle_email_reply` on the dictionary of requests. */
  datatype Handled = Handled(requests: map<string, InterviewRequest>, outcome: Outcome, sent: seq<Notice>)

  ghost function Handle(llm: ClientMode, backend: CalendarBackend, requests: map<string, InterviewRequest>,
                        requestId: string, sender: string, emailBody: string, world: World): Handled
  {
    if requestId !in requests then Handled(requests, Failed("Unknown request ID"), [])
    else
      var r := requests[requestId].(history := requests[requestId].history + [Entry(sender, emailBody)]);
      var e := ReplyEffect(requestId, r, Extracted(llm, emailBody, world),
                           Offer(backend, world.now, world.busy, r.durationMinutes, 21, r.recruiterSlots),
                           BookEvent(backend, world));
      Handled(requests[requestId := e.request], e.outcome, e.sent)
  }

  // ---------------------------------------------------------------------------
  // What the handlers promise

  /** No handler touches who the request is for, its history, or the slots already offered. */
  lemma ReplyProgress(requestId: string, r: InterviewRequest, x: Extraction, alternatives: seq<Slot>,
                      event: EventResult)
    ensures Progress(r, ReplyEffect(requestId, r, x, alternatives, event).request)
  {
  }

  /** A request is confirmed only together with a slot, and stays so. */
  lemma ReplyWellFormed(requestId: string, r: InterviewRequest, x: Extraction, alternatives: seq<Slot>,
                        event: EventResult)
    requires WellFormed(r)
    ensures WellFormed(ReplyEffect(requestId, r, x, alternatives, event).request)
  {
  }

  /** `decline` cancels the request and tells the recruiter, and nothing else. */
  lemma DeclineCancels(requestId: string, r: InterviewRequest, x: Extraction, alternatives: seq<Slot>,
                       event: EventResult)
    requires x.action == Decline
    ensures ReplyEffect(requestId, r, x, alternatives, event)
      == Effect(r.(status := Cancelled), Declined, [CancellationNotice(r.(status := Cancelled))])
  {
  }

  /** An unrecognised action with no slots changes nothing and sends nothing. */
  lemma UnclearWithoutSlots(requestId: string, r: InterviewRequest, x: Extraction, alternatives: seq<Slot>,
                            event: EventResult)
    requires x.action.Unrecognised? && x.slots == []
    ensures ReplyEffect(requestId, r, x, alternatives, event) == Effect(r, AwaitingResponse, [])
  {
  }

  /** An unrecognised action that came with slots is read as availability. */
  lemma UnclearWithSlots(requestId: string, r: InterviewRequest, x: Extraction, alternatives: seq<Slot>,
                         event: EventResult)
    requires x.action.Unrecognised? && x.slots != []
    ensures ReplyEffect(requestId, r, x, alternatives, event)
      == ReplyEffect(requestId, r, x.(action := ProvideAvailability), alternatives, event)
  {
  }

  /**
   * `_process_candidate_availability` books exactly when there are candidate
   * slots and `_find_overlap` returns something; then the first overlap is
   * the confirmed slot, the request is confirmed and both parties are
   * emailed. The candidate slots are recorded in every case.
   */
  lemma ProcessBooksFirstOverlap(requestId: string, r: InterviewRequest, cands: seq<CandidateSlot>,
                                 alternatives: seq<Slot>, event: EventResult)
    ensures var e := ProcessEffect(requestId, r, cands, alternatives, event);
      var overlap := Select(r.recruiterSlots, cands, r.durationMinutes);
      && e.request.candidateSlots == cands
      && (e.outcome.Booked? <==> overlap != [])
      && (overlap != [] ==>
            && e.outcome == Booked(overlap[0], Some(event))
            && e.request == r.(candidateSlots := cands, confirmedSlot := Some(overlap[0]), status := Confirmed)
            && e.sent == [ConfirmationNotice(e.request, overlap[0], event)])
      && (overlap == [] ==> e == NoOverlapEffect(requestId, r.(candidateSlots := cands), alternatives))
  {
    if cands == [] {
      SelectNoCandidates(r.recruiterSlots, r.durationMinutes);
    }
  }

  /**
   * `_handle_no_overlap`: with new slots the recruiter slots grow by exactly
   * those and the status is kept; without, the request needs a human.
   */
  lemma NoOverlapCases(requestId: string, r: InterviewRequest, alternatives: seq<Slot>)
    ensures var e := NoOverlapEffect(requestId, r, alternatives);
      && (alternatives != [] ==>
            && e.request == r.(recruiterSlots := r.recruiterSlots + alternatives)
            && e.outcome == AlternativesSent
            && e.sent == [AvailabilityRequest(requestId, e.request, alternatives, true)])
      && (alternatives == [] ==>
            && e.request == r.(status := NeedsHuman)
            && e.outcome == Escalated && e.sent == [EscalationNotice(e.request)])
  {
  }

  /**
   * An availability request, first or retry, carries its id in a way the
   * extractor reads back.
   */
  lemma AvailabilityRequestCarriesId(requestId: string, r: InterviewRequest, slots: seq<Slot>, retry: bool,
                                     sentAt: string)
    requires IsReqToken(requestId) && (retry || NoTag(r.jobTitle)) && BracketFree(slots)
    ensures ExtractRequestId(Render(AvailabilityRequest(requestId, r, slots, retry), sentAt)[0].body)
      == Some(requestId)
  {
    AvailabilityBodyCarriesId(requestId, r.jobTitle, retry, r.durationMinutes, slots);
  }

  /**
   * The invitation `initiate_scheduling` sends carries the new request's id
   * in a way the extractor reads back, whatever the calendar offered, as
   * long as the job title holds no tag of its own.
   */
  lemma InvitationCarriesId(backend: CalendarBackend, now: Instant, busy: seq<Busy>, candidateEmail: string,
                            r: InterviewRequest, sentAt: string)
    requires NoTag(r.jobTitle)
    ensures var id := RequestId(IdStamp(now), candidateEmail);
      ExtractRequestId(Render(AvailabilityRequest(id, r, Offer(backend, now, busy, r.durationMinutes, 14, []), false),
                              sentAt)[0].body) == Some(id)
  {
    RequestIdIsToken(now, candidateEmail);
    OfferBracketFree(backend, now, busy, r.durationMinutes, 14, []);
    AvailabilityRequestCarriesId(RequestId(IdStamp(now), candidateEmail), r,
                                 Offer(backend, now, busy, r.durationMinutes, 14, []), false, sentAt);
  }

  /** `confirm` without a confirmed slot is an error that changes nothing. */
  lemma ConfirmWithoutSlot(r: InterviewRequest, event: EventResult)
    requires r.confirmedSlot.None?
    ensures ConfirmEffect(r, event) == Effect(r, Failed("No slot to confirm"), [])
  {
  }

  /** The slot a reply books is one of the recruiter's slots, re-encoded, that a candidate slot matches. */
  lemma BookedFromRecruiterSlots(requestId: string, r: InterviewRequest, x: Extraction, alternatives: seq<Slot>,
                                 event: EventResult) returns (i: nat)
    requires ReplyEffect(requestId, r, x, alternatives, event).outcome.Booked?
    requires ReplyEffect(requestId, r, x, alternatives, event).outcome.calendarEvent.Some?
    ensures i < |r.recruiterSlots| && ParseRecruiter(r.recruiterSlots[i]).Some?
    ensures Matched(ParseRecruiter(r.recruiterSlots[i]).value, x.slots, r.durationMinutes)
    ensures ReplyEffect(requestId, r, x, alternatives, event).outcome.slot
      == Normalize(ParseRecruiter(r.recruiterSlots[i]).value)
  {
    match x.action {
      case ProvideAvailability =>
        i := ProcessBookedFromRecruiterSlots(requestId, r, x.slots, alternatives, event);
      case Unrecognised(_) =>
        i := ProcessBookedFromRecruiterSlots(requestId, r, x.slots, alternatives, event);
      case Confirm => assert false;
      case Decline => assert false;
      case RequestOtherTimes => assert false;
    }
  }

  lemma ProcessBookedFromRecruiterSlots(requestId: string, r: InterviewRequest, cands: seq<CandidateSlot>,
                                        alternatives: seq<Slot>, event: EventResult) returns (i: nat)
    requires ProcessEffect(requestId, r, cands, alternatives, event).outcome.Booked?
    requires ProcessEffect(requestId, r, cands, alternatives, event).outcome.calendarEvent.Some?
    ensures i < |r.recruiterSlots| && ParseRecruiter(r.recruiterSlots[i]).Some?
    ensures Matched(ParseRecruiter(r.recruiterSlots[i]).value, cands, r.durationMinutes)
    ensures ProcessEffect(requestId, r, cands, alternatives, event).outcome.slot
      == Normalize(ParseRecruiter(r.recruiterSlots[i]).value)
  {
    var overlap := Select(r.recruiterSlots, cands, r.durationMinutes);
    assert overlap != [] && ProcessEffect(requestId, r, cands, alternatives, event).outcome.slot == overlap[0];
    var idx := SelectIsSubsequence(r.recruiterSlots, cands, r.durationMinutes);
    i := idx[0];
  }

  /** An unknown id is an error that changes nothing and sends nothing. */
  lemma HandleUnknown(llm: ClientMode, backend: CalendarBackend, requests: map<string, InterviewRequest>,
                      requestId: string, sender: string, emailBody: string, world: World)
    requires requestId !in requests
    ensures Handle(llm, backend, requests, requestId, sender, emailBody, world)
      == Handled(requests, Failed("Unknown request ID"), [])
  {
  }

  /**
   * A reply to a known id adds exactly one history entry to that request and
   * touches no other request; no request is added or removed.
   */
  lemma HandleHistory(llm: ClientMode, backend: CalendarBackend, requests: map<string, InterviewRequest>,
                      requestId: string, sender: string, emailBody: string, world: World)
    ensures var h := Handle(llm, backend, requests, requestId, sender, emailBody, world);
      && h.requests.Keys == requests.Keys
      && forall k :: k in requests ==>
           && h.requests[k].history
              == requests[k].history + (if k == requestId then [Entry(sender, emailBody)] else [])
           && (k != requestId ==> h.requests[k] == requests[k])
           && requests[k].recruiterSlots <= h.requests[k].recruiterSlots
  {
    if requestId in requests {
      var r := requests[requestId].(history := requests[requestId].history + [Entry(sender, emailBody)]);
      var e := ReplyEffect(requestId, r, Extracted(llm, emailBody, world),
                           Offer(backend, world.now, world.busy, r.durationMinutes, 21, r.recruiterSlots),
                           BookEvent(backend, world));
      ReplyProgress(requestId, r, Extracted(llm, emailBody, world),
                    Offer(backend, world.now, world.busy, r.durationMinutes, 21, r.recruiterSlots),
                    BookEvent(backend, world));
      assert Handle(llm, backend, requests, requestId, sender, emailBody, world).requests
        == requests[requestId := e.request];
      UpdateAppendsEntry(requests, requestId, Entry(sender, emailBody), e.request);
    }
  }

  /** Storing a progressed copy of one request, with one more entry, leaves the other requests alone. */
  lemma UpdateAppendsEntry(requests: map<string, InterviewRequest>, requestId: string, entry: Entry,
                           r': InterviewRequest)
    requires requestId in requests
    requires Progress(requests[requestId].(history := requests[requestId].history + [entry]), r')
    ensures var after := requests[requestId := r'];
      && after.Keys == requests.Keys
      && forall k :: k in requests ==>
           && after[k].history == requests[k].history + (if k == requestId then [entry] else [])
           && (k != requestId ==> after[k] == requests[k])
           && requests[k].recruiterSlots <= after[k].recruiterSlots
  {
  }

  /** With the mock calendar there are always alternatives to offer, so no reply escalates. */
  lemma MockCalendarNeverEscalates(llm: ClientMode, requests: map<string, InterviewRequest>,
                                   requestId: string, sender: string, emailBody: string, world: World)
    ensures Handle(llm, MockCalendar, requests, requestId, sender, emailBody, world).outcome != Escalated
  {
    if requestId in requests {
      var r := requests[requestId].(history := requests[requestId].history + [Entry(sender, emailBody)]);
      var alternatives := Offer(MockCalendar, world.now, world.busy, r.durationMinutes, 21, r.recruiterSlots);
      MockOfferNonEmpty(world.now, world.busy, r.durationMinutes, 21, r.recruiterSlots);
      EscalatesOnlyWithoutAlternatives(requestId, r, Extracted(llm, emailBody, world), alternatives,
                                       BookEvent(MockCalendar, world));
    }
  }

  /** Only an empty list of alternatives escalates. */
  lemma EscalatesOnlyWithoutAlternatives(requestId: string, r: InterviewRequest, x: Extraction,
                                         alternatives: seq<Slot>, event: EventResult)
    requires alternatives != []
    ensures ReplyEffect(requestId, r, x, alternatives, event).outcome != Escalated
  {
  }

  lemma RenderOne(n: Notice, sentAt: string)
    ensures RenderAll([n], sentAt) == Render(n, sentAt)
  {
    assert [n][..0] == [];
  }

  /** The slot-list loop of `_send_availability_request`: one line per slot of `slots[:6]`. */
  method FormatSlotLines(slots: seq<Slot>, durationMinutes: nat) returns (lines: seq<string>)
    ensures lines == SlotLines(Offered(slots), durationMinutes)
  {
    var offered := Offered(slots);
    lines := EachLine(offered, LineOf(durationMinutes));
  }

  method EachLine(slots: seq<Slot>, line: Slot -> string) returns (lines: seq<string>)
    ensures |lines| == |slots|
    ensures forall k :: 0 <= k < |slots| ==> lines[k] == line(slots[k])
  {
    lines := [];
    for i := 0 to |slots|
      invariant |lines| == i
      invariant forall k :: 0 <= k < i ==> lines[k] == line(slots[k])
    {
      lines := lines + [line(slots[i])];
    }
  }

  /** `SlotLine` at a fixed duration, as a value the loop above can hold. */
  function LineOf(durationMinutes: nat): (f: Slot -> string)
  {
    s => SlotLine(s, durationMinutes)
  }

  class SchedulerAgent {
    const llm: ClientMode
    const calendar: CalendarBackend
    const email: MockEmailClient
    var activeRequests: map<string, InterviewRequest>

    ghost predicate Valid()
      reads this
    {
      forall id :: id in activeRequests ==> WellFormed(activeRequests[id])
    }

    constructor(llm: ClientMode, email: MockEmailClient, calendar: CalendarBackend)
      ensures this.llm == llm && this.email == email && this.calendar == calendar
      ensures activeRequests == map[]
      ensures Valid()
    {
      this.llm := llm;
      this.email := email;
      this.calendar := calendar;
      activeRequests := map[];
    }

    /** `initiate_scheduling`: a new request under a fresh id, offered the next fourteen days' slots. */
    method Initiate(recruiterEmail: string, candidateEmail: string, jobTitle: string, durationMinutes: nat,
                    now: Instant, busy: seq<Busy>)
      returns (requestId: string, request: InterviewRequest)
      requires Valid()
      modifies this, email
      ensures requestId == RequestId(IdStamp(now), candidateEmail)
      ensures request == NewRequest(recruiterEmail, candidateEmail, jobTitle, durationMinutes)
        .(recruiterSlots := Offer(calendar, now, busy, durationMinutes, 14, []), status := AwaitingCandidate)
      ensures activeRequests == old(activeRequests)[requestId := request]
      ensures email.sentEmails == old(email.sentEmails)
        + Render(AvailabilityRequest(requestId, request.(status := Pending), request.recruiterSlots, false), Iso(now))
      ensures email.pendingReplies == old(email.pendingReplies)
      ensures Valid()
    {
      requestId := "req_" + IdStamp(now) + "_" + Sanitize(LocalPart(candidateEmail));
      var slots := AvailableSlots(now, busy, durationMinutes, 14, []);
      var pending := NewRequest(recruiterEmail, candidateEmail, jobTitle, durationMinutes).(recruiterSlots := slots);
      SendAvailabilityRequest(requestId, pending, slots, false, Iso(now));
      request := pending.(status := AwaitingCandidate);
      activeRequests := activeRequests[requestId := request];
    }

    /** `calendar.get_available_slots`, for whichever client the agent holds. */
    method AvailableSlots(now: Instant, busy: seq<Busy>, durationMinutes: nat, daysAhead: nat, exclude: seq<Slot>)
      returns (slots: seq<Slot>)
      ensures slots == Offer(calendar, now, busy, durationMinutes, daysAhead, exclude)
      ensures BracketFree(slots)
    {
      match calendar {
        case GoogleCalendar =>
          ghost var scanned: nat;
          slots, scanned := GetAvailableSlots(now, busy, durationMinutes, daysAhead, exclude);
        case MockCalendar =>
          slots := MockAvailableSlots(now, durationMinutes, daysAhead, exclude);
      }
      OfferBracketFree(calendar, now, busy, durationMinutes, daysAhead, exclude);
    }

    /** `handle_email_reply`. */
    method HandleEmailReply(requestId: string, sender: string, emailBody: string, world: World)
      returns (outcome: Outcome)
      requires Valid()
      modifies this, email
      ensures var h := Handle(llm, calendar, old(activeRequests), requestId, sender, emailBody, world);
        && activeRequests == h.requests && outcome == h.outcome
        && email.sentEmails == old(email.sentEmails) + RenderAll(h.sent, Iso(world.now))
      ensures email.pendingReplies == old(email.pendingReplies)
      ensures Valid()
    {
      if requestId !in activeRequests {
        return Failed("Unknown request ID");
      }
      var r := activeRequests[requestId];
      r := r.(history := r.history + [Entry(sender, emailBody)]);
      activeRequests := activeRequests[requestId := r];
      var x := Extracted(llm, emailBody, world);
      var r', outcome' := Dispatch(requestId, r, x, world);
      outcome := outcome';
      activeRequests := activeRequests[requestId := r'];
      ReplyWellFormed(requestId, r, x, Offer(calendar, world.now, world.busy, r.durationMinutes, 21, r.recruiterSlots),
                      BookEvent(calendar, world));
    }

    /** The dispatch of `handle_email_reply` on the extracted action. */
    method Dispatch(requestId: string, r: InterviewRequest, x: Extraction, world: World)
      returns (r': InterviewRequest, outcome: Outcome)
      modifies email
      ensures var e := ReplyEffect(requestId, r, x,
                                   Offer(calendar, world.now, world.busy, r.durationMinutes, 21, r.recruiterSlots),
                                   BookEvent(calendar, world));
        && r' == e.request && outcome == e.outcome
        && email.sentEmails == old(email.sentEmails) + RenderAll(e.sent, Iso(world.now))
      ensures email.pendingReplies == old(email.pendingReplies)
    {
      match x.action {
        case ProvideAvailability =>
          r', outcome := ProcessCandidateAvailability(requestId, r, x.slots, world);
        case Confirm =>
          r', outcome := ConfirmBooking(r, world);
        case Decline =>
          r' := r.(status := Cancelled);
          SendCancellationNotice(r', Iso(world.now));
          RenderOne(CancellationNotice(r'), Iso(world.now));
          outcome := Declined;
        case RequestOtherTimes =>
          r', outcome := HandleNoOverlap(requestId, r, world);
        case Unrecognised(_) =>
          if x.slots != [] {
            r', outcome := ProcessCandidateAvailability(requestId, r, x.slots, world);
          } else {
            r', outcome := r, AwaitingResponse;
          }
      }
    }

    /** `_process_candidate_availability`. */
    method ProcessCandidateAvailability(requestId: string, r: InterviewRequest, cands: seq<CandidateSlot>, world: World)
      returns (r': InterviewRequest, outcome: Outcome)
      modifies email
      ensures var e := ProcessEffect(requestId, r, cands,
                                     Offer(calendar, world.now, world.busy, r.durationMinutes, 21, r.recruiterSlots),
                                     BookEvent(calendar, world));
        && r' == e.request && outcome == e.outcome
        && email.sentEmails == old(email.sentEmails) + RenderAll(e.sent, Iso(world.now))
      ensures email.pendingReplies == old(email.pendingReplies)
    {
      var r1 := r.(candidateSlots := cands);
      if cands == [] {
        r', outcome := HandleNoOverlap(requestId, r1, world);
        return;
      }
      var overlap := FindOverlap(r1.recruiterSlots, cands, r1.durationMinutes);
      if overlap != [] {
        var best := overlap[0];
        var event := BookEvent(calendar, world);
        r' := r1.(confirmedSlot := Some(best), status := Confirmed);
        SendConfirmation(r', best, event, Iso(world.now));
        RenderOne(ConfirmationNotice(r', best, event), Iso(world.now));
        outcome := Booked(best, Some(event));
      } else {
        r', outcome := HandleNoOverlap(requestId, r1, world);
      }
    }

    /** `_handle_no_overlap`: slots for the next 21 days, excluding those already offered. */
    method HandleNoOverlap(requestId: string, r: InterviewRequest, world: World)
      returns (r': InterviewRequest, outcome: Outcome)
      modifies email
      ensures var e := NoOverlapEffect(requestId, r,
                                       Offer(calendar, world.now, world.busy, r.durationMinutes, 21, r.recruiterSlots));
        && r' == e.request && outcome == e.outcome
        && email.sentEmails == old(email.sentEmails) + RenderAll(e.sent, Iso(world.now))
      ensures email.pendingReplies == old(email.pendingReplies)
    {
      var newSlots := AvailableSlots(world.now, world.busy, r.durationMinutes, 21, r.recruiterSlots);
      if newSlots != [] {
        r' := r.(recruiterSlots := r.recruiterSlots + newSlots);
        SendAvailabilityRequest(requestId, r', newSlots, true, Iso(world.now));
        RenderOne(AvailabilityRequest(requestId, r', newSlots, true), Iso(world.now));
        outcome := AlternativesSent;
      } else {
        r' := r.(status := NeedsHuman);
        EscalateToRecruiter(r', Iso(world.now));
        RenderOne(EscalationNotice(r'), Iso(world.now));
        outcome := Escalated;
      }
    }

    /** `_confirm_booking`. */
    method ConfirmBooking(r: InterviewRequest, world: World) returns (r': InterviewRequest, outcome: Outcome)
      modifies email
      ensures var e := ConfirmEffect(r, BookEvent(calendar, world));
        && r' == e.request && outcome == e.outcome
        && email.sentEmails == old(email.sentEmails) + RenderAll(e.sent, Iso(world.now))
      ensures email.pendingReplies == old(email.pendingReplies)
    {
      if r.confirmedSlot.Some? {
        var event := BookEvent(calendar, world);
        r' := r.(status := Confirmed);
        SendConfirmation(r', r.confirmedSlot.value, event, Iso(world.now));
        RenderOne(ConfirmationNotice(r', r.confirmedSlot.value, event), Iso(world.now));
        outcome := Booked(r.confirmedSlot.value, None);
      } else {
        r', outcome := r, Failed("No slot to confirm");
      }
    }

    /** `_send_availability_request`. */
    method SendAvailabilityRequest(requestId: string, r: InterviewRequest, slots: seq<Slot>, retry: bool, sentAt: string)
      modifies email
      ensures email.sentEmails == old(email.sentEmails) + Render(AvailabilityRequest(requestId, r, slots, retry), sentAt)
      ensures email.pendingReplies == old(email.pendingReplies)
    {
      var lines := FormatSlotLines(slots, r.durationMinutes);
      var subject := "Interview Scheduling \U{2013} " + r.jobTitle;
      var body := BodyBeforeTag(r.jobTitle, retry, lines) + TagLine(requestId) + "\n" + Rule;
      email.Send(r.candidateEmail, subject, body, None, sentAt);
    }

    /** `_send_confirmation`: the candidate is told first, then the recruiter. */
    method SendConfirmation(r: InterviewRequest, slot: Slot, event: EventResult, sentAt: string)
      modifies email
      ensures email.sentEmails == old(email.sentEmails) + Render(ConfirmationNotice(r, slot, event), sentAt)
      ensures email.pendingReplies == old(email.pendingReplies)
    {
      var display := SlotDisplay(slot);
      RenderConfirmation(r, slot, event, sentAt);
      SendConfirmationsShowing(r, display, event, sentAt);
    }

    method SendConfirmationsShowing(r: InterviewRequest, display: string, event: EventResult, sentAt: string)
      modifies email
      ensures email.sentEmails == old(email.sentEmails) + ConfirmationsShowing(r, display, event, sentAt)
      ensures email.pendingReplies == old(email.pendingReplies)
    {
      var toCandidate := CandidateConfirmation(r, display, event, sentAt);
      email.Send(toCandidate.to, toCandidate.subject, toCandidate.body, None, sentAt);
      var toRecruiter := RecruiterConfirmation(r, display, event, sentAt);
      email.Send(toRecruiter.to, toRecruiter.subject, toRecruiter.body, None, sentAt);
    }

    /** `_send_cancellation_notice`. */
    method SendCancellationNotice(r: InterviewRequest, sentAt: string)
      modifies email
      ensures email.sentEmails == old(email.sentEmails) + Render(CancellationNotice(r), sentAt)
      ensures email.pendingReplies == old(email.pendingReplies)
    {
      email.Send(r.recruiterEmail, "Interview Declined \U{2013} " + r.jobTitle, Particulars(r), None, sentAt);
    }

    /** `_escalate_to_recruiter`. */
    method EscalateToRecruiter(r: InterviewRequest, sentAt: string)
      modifies email
      ensures email.sentEmails == old(email.sentEmails) + Render(EscalationNotice(r), sentAt)
      ensures email.pendingReplies == old(email.pendingReplies)
    {
      email.Send(r.recruiterEmail, "\U{26A0}\U{FE0F} Manual Scheduling Required \U{2013} " + r.jobTitle,
                 Particulars(r), None, sentAt);
    }
  }
}
