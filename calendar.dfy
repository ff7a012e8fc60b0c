/**
 * The calendar collaborator (calendar_client.py): the working-hours slot
 * generator of `CalendarClient.get_available_slots` over a given list of
 * busy periods, its two predicates `_overlaps_busy` and `_in_excluded`,
 * the request and result of `create_event`, and the fixed-pattern
 * `MockCalendarClient`.  The freebusy query itself and the Google API calls
 * are not modelled: the busy periods and the insert outcome are inputs.
 */
module Calendar {
  import opened Wrappers
  import opened Text
  import opened Time

  /** A slot dict `{"start": ..., "end": ...}` as the calendar hands it out. */
  datatype Slot = Slot(start: string, end: string)

  /** A busy period of the freebusy answer, already parsed. */
  datatype Busy = Busy(start: Instant, end: Instant)

  datatype CalendarBackend = GoogleCalendar | MockCalendar

  const WorkingHoursStart: nat := 9 * SecondsPerHour
  const WorkingHoursEnd: nat := 18 * SecondsPerHour
  /** `get_available_slots` stops after this many slots. */
  const MaxSlots: nat := 10
  /** The generator steps through candidate starts 30 minutes apart. */
  const Step: nat := 30 * SecondsPerMinute

  predicate IsWorkingDay(t: Instant) {
    Weekday(t) < 5
  }

  /** `_overlaps_busy`: the half-open test against every busy period. */
  predicate OverlapsBusy(start: Instant, end: Instant, busy: seq<Busy>) {
    exists i :: 0 <= i < |busy| && start < busy[i].end && end > busy[i].start
  }

  /** `_in_excluded`: some excluded slot has the same start text. */
  predicate InExcluded(start: string, excluded: seq<Slot>) {
    exists i :: 0 <= i < |excluded| && excluded[i].start == start
  }

  function SlotEnd(start: Instant, durationMinutes: nat): Instant {
    start + durationMinutes * 60
  }

  /** The first candidate start: `now` floored to the hour, plus two hours. */
  function FirstCandidate(now: Instant): Instant {
    now / 3600 * 3600 + 2 * 3600
  }

  /** The k-th candidate start examined by the generator. */
  function GridPoint(now: Instant, k: nat): Instant {
    FirstCandidate(now) + k * 1800
  }

  predicate OnGrid(now: Instant, t: Instant) {
    t >= FirstCandidate(now) && (t - FirstCandidate(now)) % 1800 == 0
  }

  lemma GridPointOnGrid(now: Instant, k: nat)
    ensures OnGrid(now, GridPoint(now, k))
  {
    assert GridPoint(now, k) - FirstCandidate(now) == k * 1800;
  }

  function Horizon(now: Instant, daysAhead: nat): Instant {
    now + daysAhead * 86400
  }

  /** Every test a candidate start must pass before it is handed out. */
  predicate Offerable(t: Instant, durationMinutes: nat, busy: seq<Busy>, exclude: seq<Slot>) {
    && IsWorkingDay(t)
    && 9 * 3600 <= TimeOfDay(t) < 18 * 3600
    && TimeOfDay(SlotEnd(t, durationMinutes)) <= 18 * 3600
    && !OverlapsBusy(t, SlotEnd(t, durationMinutes), busy)
    && !InExcluded(Iso(t), exclude)
  }

  /** The tests of one loop iteration of `get_available_slots`, in the source's order. */
  method TryCandidate(current: Instant, durationMinutes: nat, busy: seq<Busy>, exclude: seq<Slot>)
    returns (slot: Option<Slot>)
    ensures slot.Some? <==> Offerable(current, durationMinutes, busy, exclude)
    ensures slot.Some? ==> slot.value == Slot(Iso(current), Iso(SlotEnd(current, durationMinutes)))
  {
    slot := None;
    if IsWorkingDay(current) && 9 * 3600 <= TimeOfDay(current) < 18 * 3600 {
      var slotEnd := SlotEnd(current, durationMinutes);
      if TimeOfDay(slotEnd) <= 18 * 3600 {
        if !OverlapsBusy(current, slotEnd, busy) {
          var candidate := Slot(Iso(current), Iso(slotEnd));
          if !InExcluded(candidate.start, exclude) {
            slot := Some(candidate);
          }
        }
      }
    }
  }

  /** The test `get_available_slots` applies to a candidate start. */
  function Test(durationMinutes: nat, busy: seq<Busy>, exclude: seq<Slot>): Instant -> bool {
    (t: Instant) => Offerable(t, durationMinutes, busy, exclude)
  }

  /** The grid points among the first `k` that pass `ok`, in scan order. */
  ghost function Scan(ok: Instant -> bool, now: Instant, k: nat): seq<Instant>
    decreases k
  {
    if k == 0 then []
    else
      var p := GridPoint(now, k - 1);
      Scan(ok, now, k - 1) + (if ok(p) then [p] else [])
  }

  /** The slot dicts for a list of starts. */
  function SlotsAt(starts: seq<Instant>, durationMinutes: nat): (r: seq<Slot>)
    ensures |r| == |starts|
    ensures forall i :: 0 <= i < |r| ==> r[i] == Slot(Iso(starts[i]), Iso(SlotEnd(starts[i], durationMinutes)))
  {
    seq(|starts|, i requires 0 <= i < |starts| => Slot(Iso(starts[i]), Iso(SlotEnd(starts[i], durationMinutes))))
  }

  lemma SlotsAtAppend(starts: seq<Instant>, t: Instant, durationMinutes: nat)
    ensures SlotsAt(starts + [t], durationMinutes)
      == SlotsAt(starts, durationMinutes) + [Slot(Iso(t), Iso(SlotEnd(t, durationMinutes)))]
  {
  }

  /**
   * `CalendarClient.get_available_slots` over a known busy list: the slots
   * of the offerable grid points met before the scan stops, which happens at
   * the first grid point `scanned` that lies past the horizon or finds ten
   * slots already collected.
   */
  method GetAvailableSlots(now: Instant, busy: seq<Busy>, durationMinutes: nat, daysAhead: nat,
                           exclude: seq<Slot>)
    returns (slots: seq<Slot>, ghost scanned: nat)
    ensures slots == SlotsAt(Scan(Test(durationMinutes, busy, exclude), now, scanned), durationMinutes)
    ensures scanned > 0 ==>
      GridPoint(now, scanned - 1) < Horizon(now, daysAhead)
      && |Scan(Test(durationMinutes, busy, exclude), now, scanned - 1)| < MaxSlots
    ensures GridPoint(now, scanned) >= Horizon(now, daysAhead)
      || |Scan(Test(durationMinutes, busy, exclude), now, scanned)| >= MaxSlots
    ensures slots == GeneratedSlots(now, busy, durationMinutes, daysAhead, exclude)
  {
    var timeMax := Horizon(now, daysAhead);
    var current := FirstCandidate(now);
    ghost var starts: seq<Instant> := [];
    scanned := 0;
    slots := [];
    while current < timeMax && |slots| < MaxSlots
      invariant current == GridPoint(now, scanned)
      invariant starts == Scan(Test(durationMinutes, busy, exclude), now, scanned)
      invariant slots == SlotsAt(starts, durationMinutes)
      invariant scanned > 0 ==>
        GridPoint(now, scanned - 1) < timeMax && |Scan(Test(durationMinutes, busy, exclude), now, scanned - 1)| < MaxSlots
      decreases timeMax as int - current as int
    {
      var candidate := TryCandidate(current, durationMinutes, busy, exclude);
      if candidate.Some? {
        SlotsAtAppend(starts, current, durationMinutes);
        slots := slots + [candidate.value];
        starts := starts + [current];
      }
      current := current + 1800;
      scanned := scanned + 1;
    }
    StopIsFirst(Test(durationMinutes, busy, exclude), now, timeMax, scanned);
  }

  /** Each start collected by a scan is one of the grid points scanned so far. */
  lemma {:induction false} ScanBelow(ok: Instant -> bool, now: Instant, k: nat)
    ensures forall i :: 0 <= i < |Scan(ok, now, k)| ==> k > 0 && Scan(ok, now, k)[i] <= GridPoint(now, k - 1)
    decreases k
  {
    if k > 0 {
      ScanBelow(ok, now, k - 1);
      var prev := Scan(ok, now, k - 1);
      var p := GridPoint(now, k - 1);
      var a := Scan(ok, now, k);
      assert a == prev + (if ok(p) then [p] else []);
      assert forall i :: 0 <= i < |prev| ==> prev[i] < p;
      forall i | 0 <= i < |a| ensures a[i] <= p {
        if i < |prev| {
          assert a[i] == prev[i];
        } else {
          assert a[i] == p;
        }
      }
    } else {
      assert Scan(ok, now, k) == [];
    }
  }

  /** Each start collected by a scan lies on the grid and passes the test. */
  lemma {:induction false} ScanPasses(ok: Instant -> bool, now: Instant, k: nat)
    ensures forall i :: 0 <= i < |Scan(ok, now, k)| ==> OnGrid(now, Scan(ok, now, k)[i]) && ok(Scan(ok, now, k)[i])
    decreases k
  {
    if k > 0 {
      ScanPasses(ok, now, k - 1);
      GridPointOnGrid(now, k - 1);
      var prev := Scan(ok, now, k - 1);
      var p := GridPoint(now, k - 1);
      var a := Scan(ok, now, k);
      assert a == prev + (if ok(p) then [p] else []);
      assert forall i :: 0 <= i < |prev| ==> OnGrid(now, prev[i]) && ok(prev[i]);
      forall i | 0 <= i < |a| ensures OnGrid(now, a[i]) && ok(a[i]) {
        if i < |prev| {
          assert a[i] == prev[i];
        } else {
          assert a[i] == p;
        }
      }
    }
  }

  /** The starts collected by a scan increase strictly. */
  lemma {:induction false} ScanIncreasing(ok: Instant -> bool, now: Instant, k: nat)
    ensures forall i, j :: 0 <= i < j < |Scan(ok, now, k)| ==> Scan(ok, now, k)[i] < Scan(ok, now, k)[j]
    decreases k
  {
    if k > 0 {
      ScanIncreasing(ok, now, k - 1);
      ScanBelow(ok, now, k - 1);
      var prev := Scan(ok, now, k - 1);
      var p := GridPoint(now, k - 1);
      var a := Scan(ok, now, k);
      assert a == prev + (if ok(p) then [p] else []);
      assert forall i :: 0 <= i < |prev| ==> prev[i] < p;
      forall i, j | 0 <= i < j < |a| ensures a[i] < a[j] {
        if j < |prev| {
          assert a[i] == prev[i] && a[j] == prev[j];
        } else {
          assert a[i] == prev[i] && a[j] == p;
        }
      }
    }
  }

  /** A scan misses no grid point among the first `k` that passes the test. */
  lemma {:induction false} ScanComplete(ok: Instant -> bool, now: Instant, k: nat)
    ensures forall j: nat :: j < k && ok(GridPoint(now, j)) ==> GridPoint(now, j) in Scan(ok, now, k)
    decreases k
  {
    if k > 0 {
      ScanComplete(ok, now, k - 1);
    }
  }

  /**
   * What `get_available_slots` promises of the instants behind its slots:
   * each is a grid point that passes every test, they increase strictly, and
   * every offerable grid point up to where the scan stopped is among them.
   */
  lemma AvailableSlotsSound(now: Instant, durationMinutes: nat, busy: seq<Busy>, exclude: seq<Slot>, scanned: nat)
    ensures var a := Scan(Test(durationMinutes, busy, exclude), now, scanned);
      && (forall i :: 0 <= i < |a| ==> OnGrid(now, a[i]) && Offerable(a[i], durationMinutes, busy, exclude))
      && (forall i, j :: 0 <= i < j < |a| ==> a[i] < a[j])
      && (forall j: nat :: j < scanned && Offerable(GridPoint(now, j), durationMinutes, busy, exclude) ==>
            GridPoint(now, j) in a)
  {
    var ok := Test(durationMinutes, busy, exclude);
    ScanPasses(ok, now, scanned);
    ScanIncreasing(ok, now, scanned);
    ScanComplete(ok, now, scanned);
  }

  /** Every slot `get_available_slots` hands out lies before the horizon, and there are at most ten. */
  lemma AvailableSlotsBounded(now: Instant, durationMinutes: nat, busy: seq<Busy>, exclude: seq<Slot>,
                              daysAhead: nat, scanned: nat)
    requires scanned > 0 ==>
      GridPoint(now, scanned - 1) < Horizon(now, daysAhead)
      && |Scan(Test(durationMinutes, busy, exclude), now, scanned - 1)| < MaxSlots
    ensures var a := Scan(Test(durationMinutes, busy, exclude), now, scanned);
      |a| <= MaxSlots && forall i :: 0 <= i < |a| ==> a[i] < Horizon(now, daysAhead)
  {
    ScanBelow(Test(durationMinutes, busy, exclude), now, scanned);
  }

  /** The generator's loop has stopped by grid point `k`: past the horizon, or ten slots found. */
  ghost predicate Stopped(ok: Instant -> bool, now: Instant, horizon: Instant, k: nat) {
    GridPoint(now, k) >= horizon || |Scan(ok, now, k)| >= MaxSlots
  }

  /** The first grid point from `k` on at which the loop has stopped. */
  ghost function FirstStop(ok: Instant -> bool, now: Instant, horizon: Instant, k: nat): (r: nat)
    ensures r >= k && Stopped(ok, now, horizon, r)
    ensures forall j :: k <= j < r ==> !Stopped(ok, now, horizon, j)
    decreases horizon - k
  {
    if k >= horizon || Stopped(ok, now, horizon, k) then k else FirstStop(ok, now, horizon, k + 1)
  }

  /** Once stopped, the loop stays stopped: grid points and slot counts only grow. */
  lemma {:induction false} StoppedLater(ok: Instant -> bool, now: Instant, horizon: Instant, j: nat, k: nat)
    requires j <= k && Stopped(ok, now, horizon, j)
    ensures Stopped(ok, now, horizon, k)
    decreases k - j
  {
    if j < k {
      StoppedLater(ok, now, horizon, j, k - 1);
      assert |Scan(ok, now, k)| >= |Scan(ok, now, k - 1)|;
    }
  }

  /** The point the loop stops at is the first stopped one. */
  lemma StopIsFirst(ok: Instant -> bool, now: Instant, horizon: Instant, k: nat)
    requires Stopped(ok, now, horizon, k)
    requires k > 0 ==> !Stopped(ok, now, horizon, k - 1)
    ensures k == FirstStop(ok, now, horizon, 0)
  {
    var f := FirstStop(ok, now, horizon, 0);
    if f < k {
      StoppedLater(ok, now, horizon, f, k - 1);
    }
  }

  /** What `get_available_slots` returns, as a function of its inputs. */
  ghost function GeneratedSlots(now: Instant, busy: seq<Busy>, durationMinutes: nat, daysAhead: nat,
                                exclude: seq<Slot>): seq<Slot>
  {
    var ok := Test(durationMinutes, busy, exclude);
    SlotsAt(Scan(ok, now, FirstStop(ok, now, Horizon(now, daysAhead), 0)), durationMinutes)
  }

  // ---------------------------------------------------------------------------
  // MockCalendarClient.get_available_slots

  /** The mock's 10:00 base on day `offset` after today. */
  function MockBase(now: Instant, offset: nat): Instant {
    At(Day(now) + offset, 10, 0, 0)
  }

  /** The starts the mock offers on day `offset` after today: 10:00 and 14:00 on a weekday. */
  function MockDayStarts(now: Instant, offset: nat): seq<Instant> {
    if Weekday(MockBase(now, offset)) < 5 then
      [MockBase(now, offset), At(Day(now) + offset, 14, 0, 0)]
    else []
  }

  /** The starts for days 1 .. n-1 after today, before the cap. */
  function MockStarts(now: Instant, n: nat): seq<Instant>
    decreases n
  {
    if n <= 1 then [] else MockStarts(now, n - 1) + MockDayStarts(now, n - 1)
  }

  /** The starts the mock hands out: days 1 to 4 after today, at most six. */
  function MockCapped(now: Instant): seq<Instant> {
    var all := MockStarts(now, 5);
    if |all| <= 6 then all else all[..6]
  }

  /** What the mock returns. */
  function MockSchedule(now: Instant, durationMinutes: nat): seq<Slot> {
    SlotsAt(MockCapped(now), durationMinutes)
  }

  /** `MockCalendarClient.get_available_slots`; ignores `daysAhead` and `exclude`. */
  method MockAvailableSlots(now: Instant, durationMinutes: nat, daysAhead: nat, exclude: seq<Slot>)
    returns (slots: seq<Slot>)
    ensures slots == MockSchedule(now, durationMinutes)
  {
    var all: seq<Slot> := [];
    ghost var starts: seq<Instant> := [];
    for offset := 1 to 5
      invariant starts == MockStarts(now, offset)
      invariant all == SlotsAt(starts, durationMinutes)
    {
      var base := MockBase(now, offset);
      if Weekday(base) < 5 {
        var afternoon := At(Day(now) + offset, 14, 0, 0);
        SlotsAtAppend(starts, base, durationMinutes);
        all := all + [Slot(Iso(base), Iso(SlotEnd(base, durationMinutes)))];
        starts := starts + [base];
        SlotsAtAppend(starts, afternoon, durationMinutes);
        all := all + [Slot(Iso(afternoon), Iso(SlotEnd(afternoon, durationMinutes)))];
        starts := starts + [afternoon];
      }
    }
    if |all| <= 6 {
      slots := all;
    } else {
      SlotsAtTake(starts, 6, durationMinutes);
      slots := all[..6];
    }
  }

  lemma SlotsAtTake(starts: seq<Instant>, n: nat, durationMinutes: nat)
    requires n <= |starts|
    ensures SlotsAt(starts[..n], durationMinutes) == SlotsAt(starts, durationMinutes)[..n]
  {
  }

  /** An instant the mock can offer: 10:00 or 14:00 on a weekday 1 to 4 days after `now`. */
  predicate MockShaped(now: Instant, t: Instant) {
    && Day(now) + 1 <= Day(t) <= Day(now) + 4
    && Weekday(t) < 5
    && (Hour(t) == 10 || Hour(t) == 14) && MinuteOf(t) == 0 && SecondOf(t) == 0
  }

  lemma MockDayStartsShape(now: Instant, offset: nat)
    ensures Weekday(MockBase(now, offset)) == (Day(now) + offset) % 7
    ensures |MockDayStarts(now, offset)| == if (Day(now) + offset) % 7 < 5 then 2 else 0
    ensures forall t :: t in MockDayStarts(now, offset) ==>
      && Day(t) == Day(now) + offset && Weekday(t) < 5
      && (Hour(t) == 10 || Hour(t) == 14) && MinuteOf(t) == 0 && SecondOf(t) == 0
    ensures forall i, j :: 0 <= i < j < |MockDayStarts(now, offset)| ==>
      MockDayStarts(now, offset)[i] < MockDayStarts(now, offset)[j]
  {
    assert Day(MockBase(now, offset)) == Day(now) + offset;
    assert Day(At(Day(now) + offset, 14, 0, 0)) == Day(now) + offset;
  }

  lemma {:induction false} MockStartsShape(now: Instant, n: nat)
    requires n <= 5
    ensures forall t :: t in MockStarts(now, n) ==> MockShaped(now, t) && Day(t) < Day(now) + n
    ensures forall i, j :: 0 <= i < j < |MockStarts(now, n)| ==> MockStarts(now, n)[i] < MockStarts(now, n)[j]
    decreases n
  {
    if n > 1 {
      MockStartsShape(now, n - 1);
      MockDayStartsShape(now, n - 1);
      var prev := MockStarts(now, n - 1);
      var day := MockDayStarts(now, n - 1);
      var all := MockStarts(now, n);
      assert all == prev + day;
      forall t | t in all ensures MockShaped(now, t) && Day(t) < Day(now) + n {
        if t in prev {
        } else {
          assert t in day;
        }
      }
      forall i, j | 0 <= i < j < |all| ensures all[i] < all[j] {
        if j < |prev| {
          assert all[i] == prev[i] && all[j] == prev[j];
        } else if i >= |prev| {
          assert all[i] == day[i - |prev|] && all[j] == day[j - |prev|];
        } else {
          assert all[i] == prev[i] && all[j] == day[j - |prev|];
          assert prev[i] in prev && day[j - |prev|] in day;
          assert Day(prev[i]) < Day(day[j - |prev|]);
          DayMonotone(prev[i], day[j - |prev|]);
        }
      }
    } else {
      assert MockStarts(now, n) == [];
    }
  }

  lemma DayMonotone(t: Instant, u: Instant)
    requires Day(t) < Day(u)
    ensures t < u
  {
  }

  /** How many of the days `d + 1` .. `d + n - 1` are weekdays. */
  function WeekdaysAfter(d: nat, n: nat): nat
    decreases n
  {
    if n <= 1 then 0 else WeekdaysAfter(d, n - 1) + (if (d + n - 1) % 7 < 5 then 1 else 0)
  }

  lemma ShiftMod7(d: nat, o: nat)
    requires o < 7
    ensures (d + o) % 7 == (d % 7 + o) % 7
  {
    var q := d / 7;
    var r := d % 7;
    assert d + o == 7 * q + (r + o);
    if r + o < 7 {
      assert (d + o) % 7 == r + o;
    } else {
      assert d + o == 7 * (q + 1) + (r + o - 7);
      assert (d + o) % 7 == r + o - 7;
    }
  }

  /** Of the four days after day `d`, at least two are weekdays. */
  lemma TwoWeekdaysAhead(d: nat)
    ensures WeekdaysAfter(d, 5) >= 2
  {
    ShiftMod7(d, 1);
    ShiftMod7(d, 2);
    ShiftMod7(d, 3);
    ShiftMod7(d, 4);
  }

  lemma {:induction false} MockStartsLength(now: Instant, n: nat)
    ensures |MockStarts(now, n)| == 2 * WeekdaysAfter(Day(now), n)
    decreases n
  {
    if n > 1 {
      MockStartsLength(now, n - 1);
      MockDayStartsShape(now, n - 1);
      var d := Day(now);
      var w := if (d + n - 1) % 7 < 5 then 1 else 0;
      assert |MockDayStarts(now, n - 1)| == 2 * w;
      assert WeekdaysAfter(d, n) == WeekdaysAfter(d, n - 1) + w;
    }
  }

  /**
   * The mock hands out between four and six slots (four consecutive days
   * hold at least two weekdays), in increasing order, each at 10:00 or 14:00
   * on a weekday 1 to 4 days ahead and lasting `durationMinutes`.
   */
  lemma MockScheduleShape(now: Instant, durationMinutes: nat)
    ensures 4 <= |MockCapped(now)| <= 6
    ensures forall t :: t in MockCapped(now) ==> MockShaped(now, t)
    ensures forall i, j :: 0 <= i < j < |MockCapped(now)| ==> MockCapped(now)[i] < MockCapped(now)[j]
    ensures |MockSchedule(now, durationMinutes)| == |MockCapped(now)|
  {
    var all := MockStarts(now, 5);
    MockStartsShape(now, 5);
    MockStartsLength(now, 5);
    TwoWeekdaysAhead(Day(now));
    assert |all| >= 4;
    CapKeepsShape(now, all);
    assert MockCapped(now) == if |all| <= 6 then all else all[..6];
  }

  /** Keeping the first six of four or more sorted mock-shaped starts keeps them sorted and mock-shaped. */
  lemma CapKeepsShape(now: Instant, all: seq<Instant>)
    requires forall t :: t in all ==> MockShaped(now, t)
    requires forall i, j :: 0 <= i < j < |all| ==> all[i] < all[j]
    requires |all| >= 4
    ensures var c := if |all| <= 6 then all else all[..6];
      && 4 <= |c| <= 6
      && (forall t :: t in c ==> MockShaped(now, t))
      && (forall i, j :: 0 <= i < j < |c| ==> c[i] < c[j])
  {
    if |all| > 6 {
      var c := all[..6];
      forall t | t in c ensures MockShaped(now, t) {
        var k :| 0 <= k < 6 && c[k] == t;
        assert all[k] == t;
      }
      forall i, j | 0 <= i < j < |c| ensures c[i] < c[j] {
        assert c[i] == all[i] && c[j] == all[j];
      }
    }
  }

  // ---------------------------------------------------------------------------
  // create_event

  /** The attendee-facing fields of the event body `create_event` submits. */
  datatype EventRequest = EventRequest(summary: string, description: string,
                                       startDateTime: string, endDateTime: string,
                                       attendees: seq<string>)

  /** What the API's insert call did: the event it created, or the exception it raised. */
  datatype InsertOutcome =
    | Inserted(eventId: string, htmlLink: string, meetLink: Option<string>)
    | InsertRaised(message: string)

  /** `create_event`'s return value: the event dict, or a dict holding only `error`. */
  datatype EventResult =
    | Created(eventId: string, htmlLink: string, meetLink: Option<string>)
    | EventError(error: string)

  /** The `dateTime` rule of calendar_client.py:151-152, as written. */
  function EventDateTime(s: string): (r: string)
    ensures ('Z' in s || '+' in s) ==> r == s
    ensures !('Z' in s || '+' in s) ==> r == s + ":00"
  {
    if 'Z' in s || '+' in s then s else s + ":00"
  }

  /** The event body `CalendarClient.create_event` sends, with the `dateTime` rule as written. */
  function EventBody(title: string, start: string, end: string, attendees: seq<string>,
                     description: string): EventRequest
  {
    EventRequest(title, description, EventDateTime(start), EventDateTime(end), attendees)
  }

  /** The same body with the corrected `dateTime` rule. */
  function EventBodyFixed(title: string, start: string, end: string, attendees: seq<string>,
                          description: string): EventRequest
  {
    EventRequest(title, description, EventDateTimeFixed(start), EventDateTimeFixed(end), attendees)
  }

  /** `CalendarClient.create_event`: any failure of the insert becomes an error-only result. */
  function CreateEvent(insert: InsertOutcome): (r: EventResult)
    ensures r.EventError? <==> insert.InsertRaised?
    ensures insert.InsertRaised? ==> r == EventError(insert.message)
    ensures insert.Inserted? ==> r == Created(insert.eventId, insert.htmlLink, insert.meetLink)
  {
    match insert
    case Inserted(id, link, meet) => Created(id, link, meet)
    case InsertRaised(msg) => EventError(msg)
  }

  const MockMeetLink: string := "https://meet.google.com/mock-meeting-link"

  /** `MockCalendarClient.create_event`: always succeeds; `stamp` is the formatted clock. */
  function MockCreateEvent(stamp: string): (r: EventResult)
    ensures r.Created? && r.meetLink == Some(MockMeetLink)
    ensures r.eventId == "mock_event_" + stamp
  {
    var id := "mock_event_" + stamp;
    Created(id, "https://calendar.google.com/calendar/event?eid=" + id, Some(MockMeetLink))
  }

  // ---------------------------------------------------------------------------
  // The dateTime suffix: as written and corrected

  lemma IsoHasNoPlus(t: Instant)
    ensures '+' !in Iso(t)
  {
    PartsAt(t);
    var d := DateText(Day(t));
    var c := StampClock(Hour(t), MinuteOf(t), SecondOf(t), true);
    assert Iso(t) == d + ['T'] + c;
    assert forall j :: 0 <= j < |c| ==> IsDigit(c[j]) || c[j] == ':';
    assert forall j :: 0 <= j < |d| ==> IsDigit(d[j]);
  }

  /** The zone handling of `_parse_dt` leaves "<text>:00" alone when the text ends in ":SS". */
  lemma StripZoneAppendSeconds(i: string)
    requires 'Z' !in i && |i| >= 3 && i[|i| - 3] == ':' && IsDigit(i[0])
    ensures StripZone(i + ":00") == i + ":00"
  {
    var z := i + ":00";
    assert z[0] == i[0] && z[|z| - 1] == '0';
    assert z[|z| - 6] == i[|i| - 3];
    assert 'Z' !in z by {
      assert forall k :: 0 <= k < |z| ==> z[k] == if k < |i| then i[k] else ":00"[k - |i|];
    }
    StripZoneClean(z);
  }

  /** "<day>THH:MM:SS:00" matches none of the timestamp layouts. */
  lemma StampSecondsTwiceRejected(day: nat, h: nat, m: nat, s: nat)
    requires h < 24 && m < 60 && s < 60
    ensures ParseDt(DateText(day) + "T" + StampClock(h, m, s, true) + ":00") == None
  {
    var d := DateText(day);
    var clock := StampClock(h, m, s, true);
    var i := d + "T" + clock;
    StampSecondsZone(day, h, m, s);
    ParseDtClean(i + ":00");
    ConcatAssoc(d + "T", clock, ":00");
    ParseNaiveClockLength(day, clock + ":00");
  }

  /** The zone handling leaves a stamp with ":00" appended alone. */
  lemma StampSecondsZone(day: nat, h: nat, m: nat, s: nat)
    requires h < 24 && m < 60 && s < 60
    ensures var i := DateText(day) + "T" + StampClock(h, m, s, true); StripZone(i + ":00") == i + ":00"
  {
    ClockShape(h, m, s);
    AppendSecondsZone(DateText(day), StampClock(h, m, s, true));
  }

  /** Date digits, 'T', an "HH:MM:SS" clock and ":00" pass the zone handling unchanged. */
  lemma AppendSecondsZone(d: string, c: string)
    requires |d| >= 1 && AllDigits(d)
    requires |c| == 8 && c[2] == ':' && c[5] == ':' && IsDigit(c[7]) && 'Z' !in c
    ensures StripZone(d + "T" + c + ":00") == d + "T" + c + ":00"
  {
    StampShape(d, c);
    StripZoneAppendSeconds(d + "T" + c);
  }

  /**
   * `isoformat()` text already carries seconds, so the rule as written turns
   * every slot start the scheduler books into "<day>THH:MM:SS:00", which no
   * timestamp layout accepts.
   */
  lemma EventDateTimeSpoilsIso(t: Instant)
    ensures EventDateTime(Iso(t)) == Iso(t) + ":00"
    ensures ParseDt(EventDateTime(Iso(t))) == None
  {
    IsoShape(t);
    IsoHasNoPlus(t);
    PartsAt(t);
    StampSecondsTwiceRejected(Day(t), Hour(t), MinuteOf(t), SecondOf(t));
  }

  /** The corrected rule: append seconds only to "<day>THH:MM" text that has none. */
  function EventDateTimeFixed(s: string): (r: string)
    ensures ('Z' in s || '+' in s) ==> r == s
    ensures !('Z' in s || '+' in s) && ParseFormat(s, 'T', false).Some? ==> r == s + ":00"
    ensures ParseFormat(s, 'T', false).None? ==> r == s
  {
    if 'Z' in s || '+' in s then s
    else if ParseFormat(s, 'T', false).Some? then s + ":00"
    else s
  }

  /**
   * As written, the event for a booked slot, whose start and end are
   * `isoformat()` text, carries two date-times that no timestamp layout reads.
   */
  lemma EventBodySpoilsBooking(title: string, t1: Instant, t2: Instant, attendees: seq<string>, description: string)
    ensures var b := EventBody(title, Iso(t1), Iso(t2), attendees, description);
      && b.summary == title && b.description == description && b.attendees == attendees
      && ParseDt(b.startDateTime) == None && ParseDt(b.endDateTime) == None
  {
    EventDateTimeSpoilsIso(t1);
    EventDateTimeSpoilsIso(t2);
  }

  /** With the corrected rule the event carries the booked slot's own start and end. */
  lemma EventBodyFixedBooking(title: string, t1: Instant, t2: Instant, attendees: seq<string>, description: string)
    ensures var b := EventBodyFixed(title, Iso(t1), Iso(t2), attendees, description);
      && b.summary == title && b.description == description && b.attendees == attendees
      && b.startDateTime == Iso(t1) && b.endDateTime == Iso(t2)
      && ParseDt(b.startDateTime) == Some(t1) && ParseDt(b.endDateTime) == Some(t2)
  {
    EventDateTimeFixedIso(t1);
    EventDateTimeFixedIso(t2);
  }

  /** Under the corrected rule a slot start keeps its text and its instant. */
  lemma EventDateTimeFixedIso(t: Instant)
    ensures EventDateTimeFixed(Iso(t)) == Iso(t)
    ensures ParseDt(EventDateTimeFixed(Iso(t))) == Some(t)
  {
    IsoShape(t);
    PartsAt(t);
    ParseFormatClockLength(Day(t), 'T', StampClock(Hour(t), MinuteOf(t), SecondOf(t), true), 'T', false);
    ParseDtIso(t);
  }

  /** Text without seconds gains ":00" and still denotes the same instant. */
  lemma EventDateTimeFixedMinutes(day: nat, h: nat, m: nat)
    requires h < 24 && m < 60
    ensures var s := DateText(day) + "T" + StampClock(h, m, 0, false);
      EventDateTimeFixed(s) == s + ":00" && ParseDt(EventDateTimeFixed(s)) == Some(At(day, h, m, 0))
  {
    var s := DateText(day) + "T" + StampClock(h, m, 0, false);
    ParseFormatStamp(day, 'T', h, m, 0, false);
    assert s == DateText(day) + ['T'] + StampClock(h, m, 0, false);
    assert forall j :: 0 <= j < |s| ==> IsDigit(s[j]) || s[j] == 'T' || s[j] == ':' by {
      var d := DateText(day);
      var c := StampClock(h, m, 0, false);
      assert forall j :: 0 <= j < |c| ==> IsDigit(c[j]) || c[j] == ':';
      assert forall j :: 0 <= j < |d| ==> IsDigit(d[j]);
    }
    assert 'Z' !in s && '+' !in s;
    var z := s + ":00";
    assert z == DateText(day) + ['T'] + StampClock(h, m, 0, true);
    assert At(day, h, m, 0) == At(day, h, m, 0);
    var i := At(day, h, m, 0);
    assert Iso(i) == z by {
      PartsAt(i);
    }
    ParseDtIso(i);
  }
}
