/**
 * The language-model collaborator (llm_client.py): `LLMClient.complete`,
 * which falls back to the keyword classifier `_mock_complete` when no API
 * client was built, and the agent's reading of the reply
 * (scheduler_agent.py:192-206).
 *
 * The reply is modelled as the structure the JSON carries: an action, the
 * slots and the message.
 */
module Llm {
  import opened Wrappers
  import opened Text
  import opened Time
  import opened Matcher

  /** The `action` key of an extraction. Any other string is `Unrecognised`. */
  datatype Action =
    | ProvideAvailability
    | Confirm
    | Decline
    | RequestOtherTimes
    | Unrecognised(name: string)

  /** The parsed reply: `action`, `slots` and `message`. */
  datatype Extraction = Extraction(action: Action, slots: seq<CandidateSlot>, message: string)

  /** What the model returned: text that parses as an extraction, or text that does not. */
  datatype LlmReply = Parsed(extraction: Extraction) | Unparsable(text: string)

  /** Whether `LLMClient.__init__` built an API client. */
  datatype ClientMode = MockMode | ApiMode

  // ---------------------------------------------------------------------------
  // `_mock_complete`

  /** Day numbers of 2025-03-10, 2025-03-11 and 2025-03-12 (a Monday, Tuesday and Wednesday). */
  const StubMonday: nat := 739319
  const StubTuesday: nat := 739320
  const StubWednesday: nat := 739321

  function StubSlot(day: nat, start: string, end: string): CandidateSlot {
    CandidateSlot(Str(DateText(day)), Str(start), Str(end))
  }

  /** The two slots of the availability branch. */
  function AvailabilitySlots(): seq<CandidateSlot> {
    [StubSlot(StubMonday, "10:00", "11:00"), StubSlot(StubTuesday, "14:00", "15:00")]
  }

  /** The one slot of the default branch. */
  function DefaultSlots(): seq<CandidateSlot> {
    [StubSlot(StubWednesday, "09:00", "10:00")]
  }

  predicate MentionsAvailability(p: string) {
    Contains(p, "monday") || Contains(p, "tuesday") || Contains(p, "available")
  }

  predicate MentionsConfirm(p: string) {
    Contains(p, "confirm") || Contains(p, "perfect") || Contains(p, "works")
  }

  predicate MentionsDecline(p: string) {
    Contains(p, "decline") || Contains(p, "not interested")
  }

  /**
   * `_mock_complete`: the first keyword group found in the lower-cased prompt
   * decides the reply; availability words win over confirmation words, which
   * win over declining words.
   */
  function MockComplete(prompt: string): (r: Extraction)
    ensures var p := Lower(prompt);
      && (r.action == ProvideAvailability <==> MentionsAvailability(p) || !(MentionsConfirm(p) || MentionsDecline(p)))
      && (r.action == Confirm <==> !MentionsAvailability(p) && MentionsConfirm(p))
      && (r.action == Decline <==> !MentionsAvailability(p) && !MentionsConfirm(p) && MentionsDecline(p))
      && (MentionsAvailability(p) ==> r.slots == AvailabilitySlots())
      && (!MentionsAvailability(p) && !MentionsConfirm(p) && !MentionsDecline(p) ==> r.slots == DefaultSlots())
      && (r.slots == [] <==> r.action != ProvideAvailability)
  {
    var p := Lower(prompt);
    if MentionsAvailability(p) then
      Extraction(ProvideAvailability, AvailabilitySlots(), "Candidate provided availability")
    else if MentionsConfirm(p) then
      Extraction(Confirm, [], "Candidate confirmed the proposed time")
    else if MentionsDecline(p) then
      Extraction(Decline, [], "Candidate declined")
    else
      Extraction(ProvideAvailability, DefaultSlots(), "Parsed availability from email")
  }

  /** `LLMClient.complete`: the stub exactly when no API client exists; otherwise what the API returned. */
  function Complete(mode: ClientMode, prompt: string, apiReply: LlmReply): (r: LlmReply)
    ensures mode == MockMode ==> r.Parsed? && r.extraction == MockComplete(prompt)
    ensures mode == ApiMode ==> r == apiReply
  {
    match mode
    case MockMode => Parsed(MockComplete(prompt))
    case ApiMode => apiReply
  }

  /** `_extract_availability_with_llm` after the call: a reply that does not parse reads as "unclear" with no slots. */
  function ReadReply(reply: LlmReply): (e: Extraction)
    ensures reply.Parsed? ==> e == reply.extraction
    ensures reply.Unparsable? ==> e == Extraction(Unrecognised("unclear"), [], reply.text)
  {
    match reply
    case Parsed(x) => x
    case Unparsable(t) => Extraction(Unrecognised("unclear"), [], t)
  }

  // ---------------------------------------------------------------------------
  // The agent's prompt

  /** The sentence of the agent's prompt that follows the quoted reply. */
  const OfferedNote: string := "The candidate was previously sent the recruiter's " + "available" + " slots listed above."

  /**
   * The prompt `_extract_availability_with_llm` builds: `head` (the date and
   * the offered slots) and `rules` (the extraction rules) are its fixed
   * wording around the candidate's reply.
   */
  function AgentPrompt(head: string, emailBody: string, rules: string): string {
    head + emailBody + "\n\"\"\"\n\n" + OfferedNote + "\n" + rules
  }

  lemma NoteMentionsAvailable(p: string, q: string)
    ensures Contains(p + OfferedNote + q, "available")
  {
    var a := "The candidate was previously sent the recruiter's ";
    var s := p + OfferedNote + q;
    assert s == (p + a) + "available" + (" slots listed above." + q);
    assert OccursAt(s, "available", |p + a|);
  }

  /**
   * Whatever the candidate wrote, the agent's prompt mentions "available", so
   * the stub always takes its first branch and offers the two fixed slots.
   */
  lemma AgentPromptTakesFirstBranch(head: string, emailBody: string, rules: string)
    ensures MockComplete(AgentPrompt(head, emailBody, rules)).action == ProvideAvailability
    ensures MockComplete(AgentPrompt(head, emailBody, rules)).slots == AvailabilitySlots()
  {
    var prompt := AgentPrompt(head, emailBody, rules);
    var p := head + emailBody + "\n\"\"\"\n\n";
    NoteMentionsAvailable(p, "\n" + rules);
    assert prompt == p + OfferedNote + ("\n" + rules);
    AvailableWins(prompt);
  }

  lemma AvailableWins(prompt: string)
    requires Contains(prompt, "available")
    ensures MentionsAvailability(Lower(prompt))
  {
    assert Lower("available") == "available";
    ContainsLower(prompt, "available");
  }

  /**
   * The stub's slots parse: 10:00-11:00 on the Monday and 14:00-15:00 on the
   * Tuesday, whatever the duration.
   */
  lemma AvailabilitySlotsParse(durationMinutes: nat)
    ensures CandidateStart(AvailabilitySlots()[0]) == Some(At(StubMonday, 10, 0, 0))
    ensures CandidateEnd(AvailabilitySlots()[0], durationMinutes) == Some(At(StubMonday, 11, 0, 0))
    ensures CandidateStart(AvailabilitySlots()[1]) == Some(At(StubTuesday, 14, 0, 0))
    ensures CandidateEnd(AvailabilitySlots()[1], durationMinutes) == Some(At(StubTuesday, 15, 0, 0))
  {
    assert StampClock(10, 0, 0, false) == "10:00";
    assert StampClock(11, 0, 0, false) == "11:00";
    assert StampClock(14, 0, 0, false) == "14:00";
    assert StampClock(15, 0, 0, false) == "15:00";
    CandidateEndWritten(StubMonday, 10, 0, 11, 0, durationMinutes);
    CandidateEndWritten(StubTuesday, 14, 0, 15, 0, durationMinutes);
  }

  /** Under the stub, every reply the agent reads is the two-slot availability reply. */
  lemma MockReplyForAgent(head: string, emailBody: string, rules: string, apiReply: LlmReply)
    ensures ReadReply(Complete(MockMode, AgentPrompt(head, emailBody, rules), apiReply))
      == Extraction(ProvideAvailability, AvailabilitySlots(), "Candidate provided availability")
  {
    AgentPromptTakesFirstBranch(head, emailBody, rules);
  }
}
