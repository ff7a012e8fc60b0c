# Ping-Schedule interview scheduler in Dafny

This project models the interview-negotiation engine of Ping-Schedule and proves properties of the model.

A recruiter starts a request. The agent takes free slots from the recruiter's calendar and e-mails the candidate an offer. The offer carries a `[Request ID: …]` tag. A polling service fetches replies, reads the id back out of each one and hands the reply to the agent. The agent asks a language model what the candidate said. It then does one of four things:
- matches the candidate's slots against the recruiter's and books the first match;
- offers more slots;
- cancels the request;
- escalates to a human.

Modules, one per part of the program:

| module | file | models |
|---|---|---|
| `Wrappers` | wrappers.dfy | `Option` |
| `Text` | text.dfy | character classes, `lower`, `strip`, `split("\n")`, decimal digits |
| `Time` | time.dfy | instants, their `isoformat` text, and `SchedulerAgent._parse_dt` |
| `Calendar` | calendar.dfy | `CalendarClient.get_available_slots`, `_overlaps_busy`, `_in_excluded`, `create_event`, and `MockCalendarClient` |
| `Matcher` | matcher.dfy | `_find_overlap` and `_parse_candidate_slot_start` / `_end` |
| `Email` | email.dfy | `EmailClient._extract_request_id`, the body-then-subject search, and `_plain_to_html` |
| `Llm` | llm.dfy | `LLMClient.complete`, `_mock_complete`, and the agent's reading of the model's reply |
| `Transport` | transport.dfy | `MockEmailClient` and `RealEmailClientWithSimulate` (main.py) |
| `Agent` | agent.dfy | `InterviewRequest` and `SchedulerAgent` |
| `Poller` | poller.dfy | `EmailPollingService._check_inbox` |

## Encoding

- **Instants.** An instant is a number of seconds since day 0. Day 0 is a Monday, so the weekday is the day number mod 7.
- **Timestamp text.** `Time.Iso` stands in for `isoformat()`. It writes the day number, `T` and `HH:MM:SS`. `Time.ParseDt` is the agent's `_parse_dt`, with the same steps in the same order:
  1. strip;
  2. drop a trailing `±HH:MM`;
  3. delete every `Z`;
  4. try the `T` and space layouts, each with and without seconds, in order.
  `Time.ParseDtIso` proves that `ParseDt` reads back what `Iso` writes.
- **State.** `SchedulerAgent`, `MockEmailClient`, `RealEmailClientWithSimulate` and `EmailPollingService` are classes whose methods update their fields.
- **Requests.** An `InterviewRequest` is a value in the agent's `activeRequests` map. Each handler computes the request's new value and stores it back under its id.
- **Spec functions.** What a handler does is stated as pure functions: `Agent.Handle`, `Agent.ReplyEffect`, `Agent.ProcessEffect`, and so on. The methods are proved equal to them, and the lemmas are about those functions.
- **Loops.** The loops of the source are loops here too:
  - the 30-minute scan of `get_available_slots`;
  - the nested loops and the `seen` loop of `_find_overlap`;
  - the line loops of `_send_availability_request` and `_plain_to_html`;
  - the reply loop of `_check_inbox`.
  Each loop is proved against a function that states its result.
- **`_find_overlap`.** `Matcher.Select` states its result as a filter over the recruiter's slots. `Matcher.DedupOverlapping` proves that the source's two-phase computation yields exactly that filter.
- **Outside inputs.** Everything the agent reads from outside for one reply is a parameter, a `World`:
  - the clock;
  - the busy periods;
  - the outcome of the calendar insert;
  - the model's answer when an API client exists;
  - the fixed prompt wording around the candidate's text.
  `EmailPollingService.CheckInbox` takes `env`, the `World` for each reply in turn.

## Model

A row whose third column starts with "definition:" names a function that models a source function; the lemmas named there state its properties. A row starting with "Proof helper:" is a lemma the proofs use that states no behaviour of its own. The slice and character lemmas behind the tag proofs in `Email` (`CharMoved`, `TagShapeMoved`, `TagInsideCopy` and the like) have no row.

| member | source | states |
|---|---|---|
| Text.LowerChar | llm_client.py:44 | lower-casing maps letters to lower-case letters and leaves every other character alone |
| Text.Lower | llm_client.py:44 | `lower()` keeps the length and lower-cases each character in place |
| Text.ContainsLower | llm_client.py:44-46 | a lower-case word found in the prompt is still found after the prompt is lower-cased |
| Text.TrimStart | scheduler_agent.py:346 | the result is a suffix of the input that does not start with whitespace |
| Text.TrimEnd | scheduler_agent.py:346 | the result is a prefix of the input that does not end with whitespace |
| Text.Strip | email_client.py:244 | `strip()` leaves no whitespace at either end |
| Text.TrimStartNoSpace | email_client.py:244 | text that already starts with a non-space character is not changed by trimming its start |
| Text.TrimEndNoSpace | email_client.py:244 | text that already ends with a non-space character is not changed by trimming its end |
| Text.StripNoSpace | email_client.py:244 | text with no whitespace at either end is its own `strip()` |
| Text.StripKeeps | email_client.py:244 | stripping cannot introduce a character the text did not hold |
| Text.SplitLines | email_client.py:241 | `split("\n")` gives at least one piece and no piece holds a newline |
| Text.JoinSplitLines | email_client.py:241 | joining the pieces with newlines gives the text back |
| Text.SplitLinesCount | email_client.py:241 | there is one piece more than there are newlines |
| Text.NumberValueDigits | scheduler_agent.py:349-355 | a decimal numeral is read back as the number it writes |
| Text.PairValue | scheduler_agent.py:349-355 | Proof helper: a two-digit field is worth less than 100 |
| Text.TwoValue | scheduler_agent.py:349-355 | a zero-padded two-digit field is read back as the number it writes |
| Text.DigitsHaveNo | scheduler_agent.py:300-301 | a numeral holds no character other than digits |
| Text.StripDigitEnds | scheduler_agent.py:346 | text that starts and ends with a digit is its own `strip()` |
| Time.At | scheduler_agent.py:325 | the instant built from a day, hour, minute and second has exactly those parts |
| Time.PartsAt | scheduler_agent.py:325 | every instant is rebuilt from its own parts, which are in range |
| Time.DigitRun | scheduler_agent.py:349-355 | the leading run of digits is maximal |
| Time.ParseClock | scheduler_agent.py:349-355 | a clock that parses names a time of day below 24:00 |
| Time.TryFormats | scheduler_agent.py:356-361 | no layout left to try means the parse fails, which is the source's `ValueError` |
| Time.StripOffset | scheduler_agent.py:346 | a trailing `±HH:MM` is removed, and text without one is kept |
| Time.RemoveZ | scheduler_agent.py:347 | no `Z` is left |
| Time.StripZone | scheduler_agent.py:345-347 | the zoneless text has no `Z` |
| Time.RemoveZAppend | scheduler_agent.py:347 | Proof helper: deleting `Z`s distributes over concatenation |
| Time.RemoveZNoZ | scheduler_agent.py:347 | text without a `Z` is not changed |
| Time.DigitRunDigits | scheduler_agent.py:349-355 | the date field of a stamp is read as exactly its digits |
| Time.DigitRunAllDigits | scheduler_agent.py:349-355 | a digit string followed by a non-digit is read as exactly that digit string |
| Time.ParseFormatStamp | scheduler_agent.py:349-355 | each layout reads back the day, hour, minute and second it was written with |
| Time.Iso | scheduler_agent.py:300-301 | definition: `isoformat()` of a whole-second instant; its properties are Time.IsoShape, Time.ParseDtIso and Time.IsoInjective |
| Time.ParseDt | scheduler_agent.py:343-364 | definition: `_parse_dt`, with None where it raises `ValueError`; its properties are Time.ParseDtIso, Time.ParseDtFirstFormat and the suffix lemmas |
| Time.IsoShape | scheduler_agent.py:300-301 | `isoformat` text is the date, `T` and `HH:MM:SS`; it starts and ends with a digit, holds no `Z` and has no offset |
| Time.IsoNoBracket | scheduler_agent.py:407-409 | timestamp text holds no `[`, so it cannot open a tag |
| Time.ParseDtIso | scheduler_agent.py:343-361 | `_parse_dt(isoformat(t)) == t`: slot text re-encoded by the matcher parses back to its instant |
| Time.IsoInjective | scheduler_agent.py:300 | distinct instants have distinct texts, so deduplicating by start text is deduplicating by start instant |
| Time.ParseDtUtcSuffix | scheduler_agent.py:347 | a trailing `Z` is ignored |
| Time.ParseDtOffsetSuffix | scheduler_agent.py:346 | a trailing `+HH:MM` or `-HH:MM` is dropped and the clock is read as it is written, not shifted |
| Time.ParseFormatClockLength | scheduler_agent.py:349-358 | a clock field longer than the layout's is rejected |
| Time.ParseNaiveClockLength | scheduler_agent.py:349-361 | text like `HH:MM:SS:00` matches no layout |
| Time.ClockShape | scheduler_agent.py:300-301 | a clock with seconds is eight characters, `:` third and sixth, a digit last, and no `Z` |
| Time.StampShape | scheduler_agent.py:300-301 | date digits, `T` and such a clock start and end with a digit, hold no `Z` and end in no offset |
| Time.StripZoneClean | scheduler_agent.py:345-347 | digit-bounded text with no offset and no `Z` passes the zone handling unchanged |
| Time.StampSplits | scheduler_agent.py:349-355 | in date digits, a non-digit separator and a rest, the date run ends at the separator and the rest follows it |
| Time.ParseClockStamp | scheduler_agent.py:349-355 | `HH:MM` and `HH:MM:SS` clocks are read back as their second of the day |
| Time.FormatFromParts | scheduler_agent.py:349-355 | a layout reads date digits, its separator and a readable clock as that day at that clock |
| Time.ParseDtStamp | scheduler_agent.py:343-361 | `<day>THH:MM:SS` is read as that moment, by the first layout tried |
| Time.ParseDtFirstFormat | scheduler_agent.py:356-361 | zoneless text the first layout reads is returned by that layout |
| Time.ParseDtClean | scheduler_agent.py:343-361 | zoneless text is read by the layouts alone |
| Time.ParseDtSameZone | scheduler_agent.py:343-361 | texts that agree once the zone is handled are read alike |
| Time.UtcSuffixKept | scheduler_agent.py:345-346 | a `Z` after digit-bounded text leaves nothing to strip and no offset to drop |
| Time.RemoveTrailingZ | scheduler_agent.py:347 | a trailing `Z` after text without one is deleted |
| Time.UtcSuffixZone | scheduler_agent.py:345-347 | a trailing `Z` does not change what the zone handling leaves |
| Time.OffsetAppend | scheduler_agent.py:346 | a sign, two digits, `:` and two digits are a six-character offset |
| Time.OffsetSuffixDropped | scheduler_agent.py:345-346 | an offset after digit-started text leaves nothing to strip and is itself dropped |
| Time.OffsetSuffixZone | scheduler_agent.py:345-347 | a trailing offset does not change what the zone handling leaves |
| Calendar.OverlapsBusy | calendar_client.py:212-216 | definition: `_overlaps_busy`, the half-open test against every busy period |
| Calendar.InExcluded | calendar_client.py:218-219 | definition: `_in_excluded`, some excluded slot has the same start text |
| Calendar.Offerable | calendar_client.py:111-123 | definition: every test a start passes before it is offered: weekday, working hours, end by 18:00, not busy, not excluded |
| Calendar.GeneratedSlots | calendar_client.py:73-129 | definition: what `get_available_slots` returns; Calendar.AvailableSlotsSound and Calendar.AvailableSlotsBounded state it |
| Calendar.MockSchedule | calendar_client.py:269-284 | definition: what the mock returns; Calendar.MockScheduleShape states it |
| Calendar.GridPointOnGrid | calendar_client.py:109-126 | the k-th start examined lies on the 30-minute grid that begins two hours past the floored hour |
| Calendar.TryCandidate | calendar_client.py:112-125 | a slot is produced exactly when the start passes every test for a free slot, and it is the start and start + duration as text |
| Calendar.SlotsAt | calendar_client.py:120-123 | one slot per start, with the end at start + duration |
| Calendar.SlotsAtAppend | calendar_client.py:125 | appending a start appends its slot |
| Calendar.GetAvailableSlots | calendar_client.py:73-129 | the loop returns the slots of the offerable grid points it met, and then stops at the first point past the horizon or with 10 slots; this equals `GeneratedSlots` |
| Calendar.ScanBelow | calendar_client.py:111 | each collected start lies at or before the last grid point examined |
| Calendar.ScanPasses | calendar_client.py:112-125 | each collected start is on the grid and passed the test |
| Calendar.ScanIncreasing | calendar_client.py:126 | collected starts strictly increase |
| Calendar.ScanComplete | calendar_client.py:111-126 | every examined grid point that passed the test was collected |
| Calendar.AvailableSlotsSound | calendar_client.py:111-126 | each returned slot is Mon–Fri, starts in [09:00, 18:00), ends by 18:00, misses every busy period, is not excluded and is on the grid; starts increase; and no offerable point before the stop is skipped |
| Calendar.AvailableSlotsBounded | calendar_client.py:86-111 | at most 10 slots, all starting before now + `days_ahead` days |
| Calendar.FirstStop | calendar_client.py:111 | the first grid point at which the loop condition fails |
| Calendar.StoppedLater | calendar_client.py:111 | once the loop condition fails, it fails at every later point |
| Calendar.StopIsFirst | calendar_client.py:111 | the point where the loop left is the first at which its condition fails |
| Calendar.MockAvailableSlots | calendar_client.py:269-284 | the mock loop returns `MockSchedule`, whatever `days_ahead` and `exclude_slots` are |
| Calendar.SlotsAtTake | calendar_client.py:284 | capping the starts caps the slots |
| Calendar.MockDayStartsShape | calendar_client.py:274-283 | a mock day gives 10:00 and 14:00 on a weekday, and nothing on a weekend |
| Calendar.MockStartsShape | calendar_client.py:273-283 | every mock start is 10:00 or 14:00 on a weekday 1 to 4 days ahead, in increasing order |
| Calendar.DayMonotone | calendar_client.py:274 | Proof helper: later instants fall on the same day or later days |
| Calendar.ShiftMod7 | calendar_client.py:275 | Proof helper: the weekday arithmetic of the mock's day offsets |
| Calendar.TwoWeekdaysAhead | calendar_client.py:273-275 | among the 4 days after any day at least two are weekdays |
| Calendar.MockStartsLength | calendar_client.py:273-283 | two mock starts per weekday ahead |
| Calendar.MockScheduleShape | calendar_client.py:269-284 | the mock hands out 4 to 6 slots, in increasing order, each at 10:00 or 14:00 on a weekday 1 to 4 days ahead, lasting the duration |
| Calendar.CapKeepsShape | calendar_client.py:284 | keeping the first six of four or more sorted mock starts keeps 4 to 6 of them, sorted and mock-shaped |
| Calendar.EventDateTime | calendar_client.py:151-152 | `:00` is appended exactly when the text holds neither `Z` nor `+` (as written) |
| Calendar.CreateEvent | calendar_client.py:172-186 | an error-only result exactly when the insert raised, carrying its message; otherwise the event's id and links |
| Calendar.MockCreateEvent | calendar_client.py:286-293 | always succeeds, with the fixed Meet link and the id `mock_event_<stamp>` |
| Calendar.IsoHasNoPlus | calendar_client.py:151 | `isoformat` text holds no `+`, so the `:00` rule applies to it |
| Calendar.StripZoneAppendSeconds | calendar_client.py:151 | appending `:00` to zoneless text leaves nothing for the zone handling to remove |
| Calendar.StampSecondsTwiceRejected | calendar_client.py:151-152 | `<day>THH:MM:SS:00` is readable by no timestamp layout |
| Calendar.StampSecondsZone | calendar_client.py:151 | the zone handling leaves `<day>THH:MM:SS:00` alone |
| Calendar.AppendSecondsZone | calendar_client.py:151 | date digits, `T`, an `HH:MM:SS` clock and `:00` pass the zone handling unchanged |
| Calendar.EventDateTimeSpoilsIso | calendar_client.py:151-152 | as written, the rule turns every slot start the agent books into text no layout accepts |
| Calendar.EventDateTimeFixed | calendar_client.py:151-152 | corrected: `:00` is appended only to `<day>THH:MM` text, which has no seconds |
| Calendar.EventDateTimeFixedIso | calendar_client.py:151-152 | under the corrected rule a booked start keeps its text and its instant |
| Calendar.EventBody | calendar_client.py:147-161 | definition: the event body `create_event` sends, with the `dateTime` rule as written |
| Calendar.EventBodyFixed | calendar_client.py:147-161 | definition: the same body under the corrected `dateTime` rule |
| Calendar.EventBodySpoilsBooking | calendar_client.py:147-161 | as written, the body keeps the title, description and attendees, but neither its start nor its end is read back by `_parse_dt` for a booked isoformat slot |
| Calendar.EventBodyFixedBooking | calendar_client.py:147-161 | corrected, the body sends the booked slot's own start and end text, which parse back to the slot's instants |
| Calendar.EventDateTimeFixedMinutes | calendar_client.py:151-152 | under the corrected rule, text without seconds gains `:00` and denotes the same instant |
| Matcher.CandidateStart | scheduler_agent.py:315-325 | definition: `_parse_candidate_slot_start`, None where it raises |
| Matcher.WrittenEnd | scheduler_agent.py:330-338 | definition: the end time written in a candidate slot, when present, non-empty and parsable |
| Matcher.Matches | scheduler_agent.py:274-294 | definition: the four tests of `_find_overlap`: same date and hour, same weekday and hour, date only, range overlap |
| Matcher.Select | scheduler_agent.py:248-313 | definition: what `_find_overlap` returns, as a filter over the recruiter slots; Matcher.DedupOverlapping proves the source's loops compute it |
| Matcher.Dedup | scheduler_agent.py:304-313 | definition: the `seen` loop: the first slot of each start, in order |
| Matcher.Take5 | scheduler_agent.py:324-334 | `s[:5]` is the prefix of length min(5, \|s\|) |
| Matcher.CandidateEnd | scheduler_agent.py:327-341 | the end exists exactly when the start does, is never before it, and is strictly after it when the duration is positive |
| Matcher.EndAfter | scheduler_agent.py:336-341 | the end used is never before the start, and strictly after it when the duration is positive |
| Matcher.CandidateWithoutDate | scheduler_agent.py:317-321 | a slot whose date is missing, null or empty parses to nothing |
| Matcher.Take5Clock | scheduler_agent.py:324 | an `HH:MM` clock followed by anything (`:SS`, say) is cut back to `HH:MM` |
| Matcher.CandidateStartTruncates | scheduler_agent.py:323-325 | the start is the date at `HH:MM`, and seconds or anything else after `HH:MM` is ignored |
| Matcher.CandidateStartDefaultsToMidnight | scheduler_agent.py:318 | a missing `start_time` reads as 00:00 |
| Matcher.WrittenEndClock | scheduler_agent.py:330-335 | a written `HH:MM` end parses on the slot's date |
| Matcher.CandidateEndWritten | scheduler_agent.py:327-341 | the end is the written end when it is strictly after the start, and otherwise start + duration |
| Matcher.CandidateEndFrom | scheduler_agent.py:332-341 | the same rule, for any slot whose start and written end parse |
| Matcher.MatchTier | scheduler_agent.py:273-296 | the `elif` chain picks a test exactly when the OR of the four tests holds; tier 1 exactly when the date and hour are the same |
| Matcher.SameDateHourIsSameWeekdayHour | scheduler_agent.py:276-281 | test 1 implies test 2, so the chain's order does not change which slots match |
| Matcher.RangeExactlyDuration | scheduler_agent.py:290-295 | an intersection exactly as long as the duration still matches |
| Matcher.MatchCountPositive | scheduler_agent.py:265-303 | a recruiter slot is appended at least once exactly when some candidate slot matches it |
| Matcher.Rep | scheduler_agent.py:299-303 | n copies of the re-encoded slot |
| Matcher.StartsOfMember | scheduler_agent.py:306-311 | a start is in `seen` exactly when some kept slot has it |
| Matcher.StartsOfLast | scheduler_agent.py:310 | keeping a slot adds its start to `seen` |
| Matcher.DedupOntoConcat | scheduler_agent.py:308-311 | deduplication of a+b is deduplication of b continued from that of a |
| Matcher.DedupOntoRep | scheduler_agent.py:308-311 | repeated copies of one slot are kept at most once |
| Matcher.DedupExpand | scheduler_agent.py:255-311 | deduplicating the multiply-appended list gives the first-kept filter |
| Matcher.FirstKeptDistinct | scheduler_agent.py:306-313 | no two results share a start |
| Matcher.FirstKeptSubsequence | scheduler_agent.py:257-313 | results come from the inputs in increasing positions |
| Matcher.StartsOfPrefix | scheduler_agent.py:306-311 | `seen` only grows |
| Matcher.FirstKeptStartsSound | scheduler_agent.py:306-313 | every result start comes from a kept input |
| Matcher.FirstKeptComplete | scheduler_agent.py:306-313 | every kept input's start appears; the input itself appears when no earlier kept input has its start |
| Matcher.FirstKeptNone | scheduler_agent.py:255-313 | nothing kept gives an empty result |
| Matcher.CountOnePositive | scheduler_agent.py:265-303 | a slot is appended exactly when it is kept |
| Matcher.EmitExpandOne | scheduler_agent.py:257-303 | what one recruiter slot appends: its re-encoding once per matching candidate slot, or nothing when it does not parse |
| Matcher.OverlappingExpand | scheduler_agent.py:255-303 | the nested loops' list is the per-slot expansion |
| Matcher.DedupOverlapping | scheduler_agent.py:255-313 | the two-phase result equals `Select`: the re-encoded parsable recruiter slots some candidate slot matches, first start wins |
| Matcher.SelectDistinctStarts | scheduler_agent.py:306-313 | `_find_overlap` returns no two slots with the same start |
| Matcher.SelectIsSubsequence | scheduler_agent.py:255-303 | the result is an order-preserving subsequence of the parsable, matched recruiter slots, re-encoded |
| Matcher.SelectComplete | scheduler_agent.py:255-313 | every parsable, matched recruiter slot's start appears; the slot itself appears unless an earlier kept slot has the same start |
| Matcher.SelectNoCandidates | scheduler_agent.py:255-313 | no candidate slots gives no overlap |
| Matcher.TestPair | scheduler_agent.py:266-297 | one inner iteration matches exactly when the candidate parses and passes one of the four tests |
| Matcher.AppendMatches | scheduler_agent.py:265-303 | the inner loop appends one re-encoded copy per matching candidate |
| Matcher.AppendSlot | scheduler_agent.py:258-303 | an unparsable recruiter slot appends nothing |
| Matcher.CollectOverlapping | scheduler_agent.py:255-303 | the nested loops build `Overlapping` |
| Matcher.OverlappingPrefix | scheduler_agent.py:255-303 | one more recruiter slot adds exactly what it emits at the end of the list |
| Matcher.DedupByStart | scheduler_agent.py:306-311 | the `seen` loop computes `Dedup` |
| Matcher.FindOverlap | scheduler_agent.py:248-313 | `_find_overlap` returns `Select` |
| Email.TagAt | email_client.py:223 | definition: pattern 1, `\[Request\s+ID:\s*(req_[\w\-]+)\]` ignoring case, at one position; Email.TagAtAccepts and Email.TagAtOnly state its language |
| Email.BareAt | email_client.py:228 | definition: pattern 2, `\b(req_[\w\-]+)\b`, at one position; Email.BareAtAccepts and Email.BareShape state its language |
| Email.LooseAt | email_client.py:233 | definition: pattern 3, `req[_\-]([\w\-]+)` ignoring case, at one position, giving `req_` and the group; Email.LooseShape states its result |
| Email.Search | email_client.py:223-233 | definition: `re.search`, the leftmost match; Email.SearchLeftmost, Email.SearchNone and Email.SearchSound state it |
| Email.ExtractRequestId | email_client.py:214-237 | definition: `_extract_request_id`, the three searches in priority order; Email.TagRoundTrip, Email.BareFallback, Email.LooseFallback and Email.ExtractShape state it |
| Email.ReplyRequestId | email_client.py:159 | definition: the id of a parsed reply, searched in body + " " + subject; Email.BodyTagWins states it |
| Email.TokenRun | email_client.py:223 | a token run stays inside the text |
| Email.SpaceRun | email_client.py:223 | a whitespace run stays inside the text |
| Email.BoundaryEnd | email_client.py:228 | the last word boundary in range, when there is one |
| Email.SearchLeftmost | email_client.py:223-233 | `re.search` returns the leftmost match |
| Email.SearchNone | email_client.py:223-233 | no match anywhere gives no result |
| Email.SearchSound | email_client.py:223-233 | a result is the match at some position with no match before it |
| Email.TokenRunExact | email_client.py:223 | the token run ends at the first character outside `[\w\-]` |
| Email.TokenRunChars | email_client.py:223 | the token run holds only `[\w\-]` |
| Email.SpaceRunExact | email_client.py:223 | the whitespace run ends at the first character that is not whitespace |
| Email.SpaceRunChars | email_client.py:223 | the whitespace run holds only whitespace and is maximal |
| Email.SpaceRunBeforeLetter | email_client.py:223 | whitespace followed by a letter is read as exactly that whitespace |
| Email.TagTokenAccepts | email_client.py:223 | `req_` + token + `]` is accepted |
| Email.TagAfterRequestAccepts | email_client.py:223 | the layout after `Request`: whitespace, `ID:`, optional whitespace, the token and `]` |
| Email.TagAtAccepts | email_client.py:223 | the whole tag pattern accepts its shape |
| Email.TagLineLayout | email_client.py:223 | a tag line inside text has the tag shape |
| Email.ReqTokenAt | email_client.py:223 | a request-id token inside text reads as `req_` and token characters |
| Email.TagAtLineAt | email_client.py:223-225 | a tag line yields its id |
| Email.TagAtLine | email_client.py:223-225 | a tag line between any texts yields its id at its position |
| Email.NoTagBefore | email_client.py:223 | no tag starts before the first `[` |
| Email.NoBracketNoTag | email_client.py:223 | text without `[` holds no tag |
| Email.TagFirstWins | email_client.py:222-225 | a tag at the first `[` is returned, whatever else the text holds |
| Email.TagRoundTrip | email_client.py:222-225 | any `req_` + `[\w\-]+` id in a tag line is read back when no tag match starts in the text before the line; a `[` there that opens no complete tag is skipped, and the text after the line may be anything |
| Email.NoTag | email_client.py:223 | definition: no position of the text starts a match of the tag pattern |
| Email.NoTagSearch | email_client.py:223 | a text holds no tag exactly when `re.search` with the tag pattern finds nothing in it |
| Email.SearchNoneAll | email_client.py:223-233 | a search that finds nothing from a position on means no position from there on matches |
| Email.BracketedWordsHoldNoTag | email_client.py:223 | "Engineer [Remote]", "see [1]" and "[image: logo]" hold a `[` but no tag, so the round trips cover text holding them |
| Email.TagEarlierWins | email_client.py:222-225 | conversely, when the text before a tag line holds a tag, the extractor returns the first tag of that text, not the line's id |
| Email.TagFirstMatch | email_client.py:222-225 | a tag match with no tag match before it is what the extractor returns |
| Email.TagExtend | email_client.py:223 | a tag matched in a text is matched, with the same id, in any text that starts with it |
| Email.TagConfined | email_client.py:223 | a position with no tag in a piece of text still has none once the piece is surrounded, if what follows the piece is cut off by a character no tag holds before any `]` |
| Email.NoTagJoin | email_client.py:223 | tag-free text between bracket-free texts stays tag-free when what follows it is cut off by a character no tag holds before any `]` |
| Email.TagAtOnly | email_client.py:223 | conversely, every tag match has exactly the tag shape |
| Email.TagTokenOnly | email_client.py:223 | every accepted token is `req_`, a non-empty token run and `]` |
| Email.TagAfterRequestOnly | email_client.py:223 | every accepted tail has the layout whitespace, `ID:`, whitespace, token, `]` |
| Email.BareAtAccepts | email_client.py:228 | a word-bounded `req_` run is accepted by the bare pattern |
| Email.BareFirst | email_client.py:227-230 | with no tag in the text, the first word-bounded `req_…` is the id (case-sensitive) |
| Email.NoBareInPrefix | email_client.py:228 | no `req_` starts in a prefix that holds none |
| Email.BareFallback | email_client.py:227-230 | a bare id with no tag and no earlier `req_` is read back |
| Email.BareLayout | email_client.py:228 | a bare id between non-word characters has the bare shape |
| Email.BareStart | email_client.py:228 | an id written at the start or after a non-word character begins with `req_` at a word boundary |
| Email.BareRun | email_client.py:228 | after its `req_`, an id ending in a word character is a run of token characters ending on a word character |
| Email.BareEnd | email_client.py:228 | an id followed by the end or by a non-token character ends its token run there |
| Email.LooseFirst | email_client.py:232-235 | with no tag and no bare id, the loose pattern gives `req_` and the run |
| Email.LooseFallback | email_client.py:232-235 | `REQ-abc` and the like come back as `req_abc`: the case and the separator are normalised |
| Email.ExtractEmpty | email_client.py:219-220 | empty text has no id |
| Email.ExtractShape | email_client.py:214-237 | whatever is found is `req_` (in some case) followed by a token run |
| Email.TagShape | email_client.py:223-225 | the tag pattern yields such a token |
| Email.BareShape | email_client.py:228-230 | the bare pattern yields such a token |
| Email.LooseShape | email_client.py:233-235 | the loose pattern yields such a token |
| Email.BodyTagWins | email_client.py:159 | a tag line in the body is read back from body + subject whenever no tag match starts in the body before it, whatever the rest of the body and the subject hold |
| Email.Elements | email_client.py:241-250 | one element per line, each the element of its line |
| Email.ConvertLine | email_client.py:244-250 | one loop step computes the element of the line |
| Email.ElementsPrefix | email_client.py:243-250 | one more line of the text adds exactly its element at the end |
| Email.PlainToHtml | email_client.py:239-254 | the loop computes the elements of the lines, and the page is head + joined elements + tail |
| Email.ElementsPerLine | email_client.py:241-250 | exactly one element per newline-separated line |
| Email.ElementKinds | email_client.py:244-250 | a `•` line gives `<li>` of the rest, stripped; a blank line gives `<br>`; any other line gives `<p>` of the stripped line |
| Email.Element | email_client.py:243-250 | definition: the HTML element one stripped line becomes: `<li>` for a bullet, `<br>` for an empty line, `<p>` otherwise |
| Email.Wrapped | email_client.py:246-250 | Proof helper: wrapping text in tags adds no newline |
| Email.ElementNoNewline | email_client.py:244-250 | no element holds a newline |
| Llm.AgentPrompt | scheduler_agent.py:160-190 | definition: the prompt, with its fixed wording around the candidate's reply |
| Llm.MockComplete | llm_client.py:42-74 | keyword groups are tested on the lower-cased prompt in priority order (availability, then confirm, then decline, then the default); each branch's action and slots are fixed, and confirm and decline come with no slots |
| Llm.Complete | llm_client.py:31-40 | the stub is used exactly when no API client exists |
| Llm.ReadReply | scheduler_agent.py:192-206 | an unparsable answer reads as `unclear` with no slots, carrying the raw text |
| Llm.NoteMentionsAvailable | scheduler_agent.py:164 | the prompt's fixed sentence holds `available` |
| Llm.AgentPromptTakesFirstBranch | scheduler_agent.py:153-192 | whatever the candidate wrote, the stub takes its first branch on the agent's prompt |
| Llm.AvailableWins | llm_client.py:44-46 | a prompt containing `available` mentions availability after lower-casing |
| Llm.AvailabilitySlotsParse | llm_client.py:47-53 | the stub's two slots parse as Monday 10:00–11:00 and Tuesday 14:00–15:00 |
| Llm.MockReplyForAgent | scheduler_agent.py:192-206 | without an API client the agent always reads the two-slot availability reply |
| Transport.RealReplies | main.py:127-132 | a missing or raising real fetch contributes no replies |
| Transport.MockEmailClient.constructor | main.py:49-51 | both lists start empty |
| Transport.MockEmailClient.Send | main.py:53-61 | exactly one record, with the given fields, is appended |
| Transport.MockEmailClient.FetchNewReplies | main.py:69-73 | the queue is returned in order and left empty |
| Transport.MockEmailClient.SimulateReply | main.py:75-83 | one reply is queued; its body is the text + `\n\n[Request ID: <id>]` and its `request_id` is the id |
| Transport.RealEmailClientWithSimulate.constructor | main.py:102-105 | both lists start empty |
| Transport.RealEmailClientWithSimulate.Send | main.py:107-116 | the real client's result is returned and the recipient and subject are recorded, whatever that result is |
| Transport.RealEmailClientWithSimulate.FetchNewReplies | main.py:118-134 | injected replies come before real ones, the queue is cleared, and a raising real fetch leaves only the injected replies |
| Transport.RealEmailClientWithSimulate.SimulateReply | main.py:136-147 | the same queued reply as the mock's |
| Transport.SimulatedReply | main.py:75-83 | definition: the reply `simulate_reply` queues |
| Transport.SimulatedReplyRoundTrip | main.py:75-83 | a simulated reply carries its id, and the extractor reads it back from the body and from body + subject whenever the reply text holds no tag of its own |
| Agent.RequestIdAsWritten | scheduler_agent.py:83 | definition: the id as line 83 builds it, from the raw local part; Agent.RequestIdAsWrittenLost states what goes wrong |
| Agent.RequestId | scheduler_agent.py:83 | definition: the corrected id, with the local part sanitised; Agent.RequestIdIsToken states it |
| Agent.LocalPart | scheduler_agent.py:83 | `split('@')[0]` is the prefix before the first `@` |
| Agent.IdStamp | scheduler_agent.py:83 | the timestamp of the id is token characters |
| Agent.DigitsAreTokenChars | scheduler_agent.py:83 | Proof helper: digits are token characters |
| Agent.TokenCharsConcat | scheduler_agent.py:83 | Proof helper: token text concatenates to token text |
| Agent.Sanitize | scheduler_agent.py:83 | corrected: characters outside `[\w\-]` become `_`, and the others are kept |
| Agent.RequestIdIsToken | scheduler_agent.py:83 | every corrected id has the form the tag pattern reads back |
| Agent.RequestIdKeepsTokenLocalParts | scheduler_agent.py:83 | for ordinary addresses the corrected id is the id as written |
| Agent.RequestIdAsWrittenLost | scheduler_agent.py:83 | as written, an id whose local part has a non-token character is not read back from its own tag line |
| Agent.NeverExtracted | email_client.py:214-237 | no text yields an id with a character outside the token class after its `req_` |
| Agent.LocalPartOf | scheduler_agent.py:83 | the local part of `a@b` is `a` |
| Agent.DottedIdLost | scheduler_agent.py:83 | in particular, an address like `jane.doe@example.com` loses its id |
| Agent.SlotLine | scheduler_agent.py:405-409 | definition: one line of the slot list, formatted when the start parses and raw otherwise |
| Agent.AvailabilityBody | scheduler_agent.py:410-427 | definition: the body `_send_availability_request` sends; Agent.AvailabilityBodyCarriesId and Agent.AvailabilityListsFirstSix state it |
| Agent.Offered | scheduler_agent.py:404 | at most 6 slots are listed, and they are a prefix of the slots |
| Agent.SlotLines | scheduler_agent.py:403-409 | one line per listed slot |
| Agent.NoBracketConcat | scheduler_agent.py:412-427 | Proof helper: joining bracket-free texts gives bracket-free text |
| Agent.OpeningNoBracket | scheduler_agent.py:414 | the opening sentence holds no `[` when it is the retry sentence or the job title holds none |
| Agent.SlotLineNoBracket | scheduler_agent.py:405-409 | slot lines hold no `[` when the slot texts hold none |
| Agent.ParsedSlotLineNoBracket | scheduler_agent.py:407 | a formatted slot line holds no `[` |
| Agent.RawSlotLineNoBracket | scheduler_agent.py:409 | a raw slot line holds no `[` when the slot texts hold none |
| Agent.JoinNoBracket | scheduler_agent.py:418 | joined slot lines hold no `[` |
| Agent.BodyBeforeTagNoBracket | scheduler_agent.py:412-425 | nothing before the tag line holds a `[` when the slot lines hold none and the body is a retry or the job title holds none |
| Agent.AfterOpeningNoBracket | scheduler_agent.py:416-427 | Proof helper: the body after the opening sentence holds no `[` when the slot lines hold none |
| Agent.BodyAroundTitle | scheduler_agent.py:412-427 | Proof helper: the first-offer body is the greeting and invitation, the job title, then the rest of the body |
| Agent.AfterTitleNoBracket | scheduler_agent.py:414-427 | Proof helper: the body after the job title holds no `[` when the slot lines hold none |
| Agent.AfterTitleCutsTags | scheduler_agent.py:414 | right after the job title comes " position." : its `.` cannot continue a tag, and no `]` comes before it, so no tag can start in the title and end after it |
| Agent.BodyBeforeTagNoTag | scheduler_agent.py:412-425 | no tag starts in the body before the tag line when the slot lines hold no `[` and the body is a retry or the job title holds no tag |
| Agent.AvailabilityBodyCarriesId | scheduler_agent.py:412-427 | an availability body, first offer or retry, yields its id back through the extractor whenever the job title of a first offer holds no tag of its own (a title such as "Engineer [Remote]" is covered) |
| Agent.AvailabilityListsFirstSix | scheduler_agent.py:403-418 | the body lists exactly the first six slots, in order |
| Agent.SlotsAtBracketFree | calendar_client.py:120-123 | generated slot texts hold no `[` |
| Agent.OfferBracketFree | calendar_client.py:73-129 | slots from either calendar hold no `[` |
| Agent.Offer | calendar_client.py:73-129 | definition: what `get_available_slots` returns for each kind of calendar client |
| Agent.Extracted | scheduler_agent.py:140-206 | definition: `_extract_availability_with_llm`, the model's answer to the prompt read as an action and slots |
| Agent.MockOfferNonEmpty | calendar_client.py:269-284 | the mock calendar always offers at least 4 slots |
| Agent.BookEvent | scheduler_agent.py:228-234 | the mock calendar always books, with its Meet link; the real one gives an error exactly when the insert raised |
| Agent.MockExtraction | scheduler_agent.py:192-206 | without an API client, every reply is read as the stub's two-slot availability |
| Agent.Render | scheduler_agent.py:429-541 | a confirmation e-mails the candidate and then the recruiter; an offer goes to the candidate; a cancellation or an escalation goes to the recruiter |
| Agent.RenderConfirmation | scheduler_agent.py:435-506 | a confirmation renders as the candidate's and then the recruiter's e-mail, showing the slot's display text |
| Agent.NoOverlapEffect | scheduler_agent.py:366-380 | definition: `_handle_no_overlap`; Agent.NoOverlapCases states it |
| Agent.BookEffect | scheduler_agent.py:223-242 | definition: the booking branch of `_process_candidate_availability` |
| Agent.ProcessEffect | scheduler_agent.py:211-246 | definition: `_process_candidate_availability`; Agent.ProcessBooksFirstOverlap states it |
| Agent.ConfirmEffect | scheduler_agent.py:382-394 | definition: `_confirm_booking`; Agent.ConfirmWithoutSlot states its error case |
| Agent.DeclineEffect | scheduler_agent.py:123-126 | definition: the `decline` branch; Agent.DeclineCancels states it |
| Agent.ReplyEffect | scheduler_agent.py:117-135 | definition: the dispatch on the extracted action; Agent.ReplyProgress and Agent.ReplyWellFormed state it |
| Agent.Handle | scheduler_agent.py:104-135 | definition: the whole of `handle_email_reply` on the map of requests; Agent.HandleUnknown and Agent.HandleHistory state it |
| Agent.ReplyProgress | scheduler_agent.py:104-135 | no handler changes who and what a request is for or its history, and the recruiter slots only grow |
| Agent.ReplyWellFormed | scheduler_agent.py:223-391 | a request is confirmed only together with a slot |
| Agent.DeclineCancels | scheduler_agent.py:123-126 | `decline` sets `cancelled` and tells only the recruiter |
| Agent.UnclearWithoutSlots | scheduler_agent.py:131-135 | an unrecognised action with no slots changes nothing, sends nothing and returns `awaiting_response` |
| Agent.UnclearWithSlots | scheduler_agent.py:131-134 | an unrecognised action with slots is handled as availability |
| Agent.ProcessBooksFirstOverlap | scheduler_agent.py:211-246 | booking happens exactly when the overlap is non-empty; then the first overlap is the confirmed slot, the status becomes `confirmed` and both parties are e-mailed; otherwise control goes to the no-overlap handler; candidate slots are recorded in every case |
| Agent.NoOverlapCases | scheduler_agent.py:366-380 | new slots are appended and offered with the status kept; no new slots means `needs_human` and an escalation |
| Agent.AvailabilityRequestCarriesId | scheduler_agent.py:399-433 | the e-mail sent carries an id the extractor reads back, unless the job title of a first offer holds a tag of its own |
| Agent.InvitationCarriesId | scheduler_agent.py:83-95 | the first invitation carries the new request's corrected id, readable back whatever the calendar offered, as long as the job title holds no tag of its own |
| Agent.ConfirmWithoutSlot | scheduler_agent.py:384-394 | `confirm` with no confirmed slot is an error that changes nothing |
| Agent.BookedFromRecruiterSlots | scheduler_agent.py:117-242 | a booked slot is a recruiter slot, re-encoded, that some candidate slot matches |
| Agent.ProcessBookedFromRecruiterSlots | scheduler_agent.py:220-242 | the same, for `_process_candidate_availability` |
| Agent.HandleUnknown | scheduler_agent.py:105-106 | an unknown id is an error that changes nothing and sends nothing |
| Agent.HandleHistory | scheduler_agent.py:104-135 | a known id gets exactly one new history entry `{from, body}`; no other request changes; none is added or removed; recruiter slots only grow |
| Agent.UpdateAppendsEntry | scheduler_agent.py:109-135 | storing a request that grew by one entry adds that entry to its own history only, keeps every other request and every key, and lets recruiter slots only grow |
| Agent.MockCalendarNeverEscalates | scheduler_agent.py:366-380 | with the mock calendar no reply escalates |
| Agent.EscalatesOnlyWithoutAlternatives | scheduler_agent.py:373-380 | only an empty list of new slots escalates |
| Agent.RenderOne | scheduler_agent.py:429-433 | one helper call renders as its own e-mails |
| Agent.FormatSlotLines | scheduler_agent.py:403-409 | the loop builds one line per slot of `slots[:6]` |
| Agent.EachLine | scheduler_agent.py:404-409 | a loop over slots gives one line per slot, in order |
| Agent.LineOf | scheduler_agent.py:405-409 | the line function is the slot-line format for the duration |
| Agent.SchedulerAgent.constructor | scheduler_agent.py:61-65 | no requests and a consistent state |
| Agent.SchedulerAgent.Initiate | scheduler_agent.py:70-99 | the id is built from the clock and the address; the request is stored with the offered slots and `awaiting_candidate`; exactly one invitation is sent |
| Agent.SchedulerAgent.AvailableSlots | calendar_client.py:73-129 | the slots of the agent's calendar |
| Agent.SchedulerAgent.HandleEmailReply | scheduler_agent.py:104-135 | the new map, the result and the e-mails are those of `Handle` |
| Agent.SchedulerAgent.Dispatch | scheduler_agent.py:117-135 | dispatch on the action gives `ReplyEffect` |
| Agent.SchedulerAgent.ProcessCandidateAvailability | scheduler_agent.py:211-246 | gives `ProcessEffect` |
| Agent.SchedulerAgent.HandleNoOverlap | scheduler_agent.py:366-380 | gives `NoOverlapEffect` |
| Agent.SchedulerAgent.ConfirmBooking | scheduler_agent.py:382-394 | gives `ConfirmEffect` |
| Agent.SchedulerAgent.SendAvailabilityRequest | scheduler_agent.py:399-433 | one e-mail to the candidate: the offer with its tag line |
| Agent.SchedulerAgent.SendConfirmation | scheduler_agent.py:435-506 | two e-mails, first to the candidate and then to the recruiter |
| Agent.SchedulerAgent.SendConfirmationsShowing | scheduler_agent.py:452-506 | the two confirmation e-mails for a given slot display |
| Agent.SchedulerAgent.SendCancellationNotice | scheduler_agent.py:510-525 | one e-mail to the recruiter |
| Agent.SchedulerAgent.EscalateToRecruiter | scheduler_agent.py:527-541 | one e-mail to the recruiter |
| Poller.Routable | main.py:191 | definition: `if reply.request_id:` is true |
| Poller.RouteStep | main.py:191-198 | definition: what routing one reply does to the requests, results and e-mails |
| Poller.Inbox | main.py:189-201 | definition: `_check_inbox` over the fetched replies; Poller.InboxHistory and Poller.InboxAnswersRoutedReplies state it |
| Poller.RoutableCount | main.py:191-192 | the number of replies with a truthy `request_id` |
| Poller.EntriesFor | main.py:191-198 | the history entries routed to one request, in order |
| Poller.InboxAnswersRoutedReplies | main.py:189-201 | the agent is called once per reply with an id, and for no other reply |
| Poller.InboxKeys | main.py:189-201 | an inbox check adds and removes no request |
| Poller.InboxHistory | main.py:189-201 | each request's history grows by exactly the replies addressed to it, in fetch order, with their sender and body |
| Poller.StepHistory | main.py:192-198 | one routed reply adds its entry to its own request and to no other |
| Poller.InboxNeverEscalatesWithMockCalendar | main.py:189-201 | with the mock calendar no routed reply escalates |
| Poller.AppendSent | main.py:194-198 | Proof helper: the e-mails of successive replies concatenate |
| Poller.EmailPollingService.constructor | main.py:169-173 | the agent, the client and the interval are kept |
| Poller.EmailPollingService.CheckInbox | main.py:189-201 | the fetched replies are routed in order: the requests, results and e-mails are those of `Inbox`, and the queue ends empty |
| Poller.EmailPollingService.RouteOne | main.py:191-201 | one loop turn does `RouteStep` |

## Left out

- Email wording: the exact text of the confirmation, cancellation and escalation e-mails. Recipients, subjects and the data lines (role, candidate, date, duration, Meet link) are modelled; the prose is fixed text.
- `strftime` displays, such as `%A, %B %d at %I:%M %p`. `Iso` stands in for every date display. Month names and the 12-hour clock are not modelled.
- `slot.get("display", slot["start"])` in `_send_confirmation`: an unparsable slot shows its start text.
- Real calendar dates. Dates are day numbers written in decimal.
- `strptime` leniency (scheduler_agent.py:325, 335, 349-358). `Time.ParseFormat` and `Time.ParseClock` demand exactly two digits for each of hour, minute and second, the exact literal characters, and exactly one space in the space layouts. `strptime` is more lenient in four ways the model does not capture:
  - one-digit hour, minute and second fields (`10:5` is 10:05);
  - literals matched ignoring case (a lower-case `t` separator);
  - any run of whitespace where the layout has a space;
  - the `%f` fraction.
  Recruiter slot text is always the model's own `Iso` text, so this does not affect recruiter slots. Candidate slot `date`, `start_time` and `end_time` text comes from the language model's reply and can be any text. A candidate slot written in one of these forms does not parse in the model, so it is skipped, while the source parses it and may match it.
- `datetime.utcnow()` and `datetime.now()`: one clock reading per handler call (`World.now`) stands in for both. Clock readings are whole seconds: the microseconds of `utcnow()` are dropped.
- GetAvailableSlots: with whole-second clock readings the horizon `now + days_ahead` is itself a whole second. The source floors `current` (calendar_client.py:109) but keeps the fraction of the reading in `time_max` (calendar_client.py:86). So when the clock reads hh:00:00.x or hh:30:00.x, the source also examines, and may offer, the grid point at exactly now + days_ahead. The model stops before that point.
- The language model: what the API answers is an input (`World.apiReply`). The prompt's fixed wording is `World.promptHead` and `World.promptRules`.
- The JSON layer: `json.loads` and the markdown clean-up. The reply is modelled as the structure it carries. A JSON object without an `action` key, which raises `KeyError` in `handle_email_reply`, is not modelled.
- Llm.MockComplete: its slot dates are the day numbers of 2025-03-10, 2025-03-11 and 2025-03-12, not the `YYYY-MM-DD` texts.
- Case folding: ASCII letters only. Non-ASCII letters are left as they are by `lower()` and `re.IGNORECASE`. `strip()` is modelled with Python's full whitespace set.
- Character classes: `\w`, `\d` and `\b` cover ASCII letters, digits and `_` only. Python 3's `re` on `str` also counts non-ASCII letters and digits, such as `é`, `ß` and `١`.
- NeverExtracted: holds for the ASCII class only. The source's patterns also read back an id with a non-ASCII letter after `req_`, such as `req_…_josé`.
- RequestIdAsWrittenLost: "non-token character" means outside the ASCII class. An as-written id whose local part holds `é` is read back by the source; one holding `.` or `+` is lost, as the lemma states.
- The Google Calendar API (`_get_service`, the freebusy query, `events().insert`, `delete_event`) and `CalendarClient._parse_dt`. The busy periods are given as parsed instants, and the insert outcome is an input. A failing freebusy query is the empty busy list.
- `create_event`'s location, `timeZone`, reminders, conference request and `sendUpdates`. The body's summary, description, attendees and `dateTime` rule are modelled (`Calendar.EventBody`), and so is the result. The agent's booking depends only on the insert outcome.
- SMTP and IMAP (`EmailClient.send`, `fetch_new_replies`, `_parse_raw_email`, `_extract_body`) and the configuration presets. Only `ReplyRequestId`, the id search over body + subject, is modelled.
- Threading: `EmailPollingService.start`, `stop` and `_poll_loop`, the sleep between checks, and `run_demo`.
- `process_candidate_input`: dead code. It is a module-level function that refers to attributes that do not exist.
- Printing: what the source prints is not modelled. `CheckInbox` returns the agent's results, which the source prints.
- Request aliasing: a request is a value stored back under its id. The source stores the request object before it fetches the slots (scheduler_agent.py:84-96); the state at the end is the same.
- The agent's e-mail client is always the `MockEmailClient` class. Traits are not used, so `RealEmailClientWithSimulate` is modelled on its own and the agent does not use it.
- Durations are natural numbers. A negative `duration_minutes` is not modelled.
- Handler results are the `Outcome` datatype, not dictionaries.
- Agent.SchedulerAgent.Initiate: uses the corrected request id (see Findings), not the id as written at scheduler_agent.py:83.

Behaviour of the code the model keeps:
- `initiate_scheduling` sends an offer even when there are no slots. It raises no error.
- The status after an offer is `awaiting_candidate`. `awaiting_response` is only a result status.
- Confirmed, cancelled and escalated requests are not terminal: `handle_email_reply` never looks at the status.
- `_find_overlap` can match slots that do not overlap in time. Test 2 matches the same weekday and hour on different dates.

## Findings

| source | as written | input that shows it | evidently intended | confidence | as-written member | corrected member |
|---|---|---|---|---|---|---|
| calendar_client.py:151-152 | `:00` is appended to every start and end without `Z` or `+`, but the slot texts the agent books come from `isoformat()`, which already ends in `:SS` | booking the slot starting 2025-03-10T10:00:00 submits `2025-03-10T10:00:00:00`, which is not a valid RFC 3339 date-time and which no timestamp layout accepts | append `:00` only to `YYYY-MM-DDTHH:MM` text that has no seconds | not executed | Calendar.EventDateTime, Calendar.EventDateTimeSpoilsIso, Calendar.EventBody, Calendar.EventBodySpoilsBooking | Calendar.EventDateTimeFixed, Calendar.EventDateTimeFixedIso, Calendar.EventBodyFixed, Calendar.EventBodyFixedBooking |
| scheduler_agent.py:83 | the request id keeps the raw local part of the candidate's address, but the tag pattern accepts only `[\w\-]` | `jane.doe@example.com` gives `req_<stamp>_jane.doe`; the tag pattern fails at the `.`, and the bare pattern returns the truncated `req_<stamp>_jane`, an unknown id | ids that the tag line reads back, e.g. with non-token characters replaced by `_` | not executed | Agent.RequestIdAsWritten, Agent.RequestIdAsWrittenLost, Agent.DottedIdLost | Agent.RequestId, Agent.RequestIdIsToken, Agent.InvitationCarriesId |
