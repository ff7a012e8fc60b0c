/**
 * Instants and their text form.
 *
 * An instant is a whole number of seconds since 0001-01-01T00:00:00, the
 * epoch of Python's proleptic Gregorian ordinal (that day was a Monday), so
 * `Weekday` agrees with Python's `datetime.weekday()`.  A calendar date is
 * written as its day number in decimal, and a timestamp as
 * "<day>T<HH>:<MM>:<SS>" (`Iso`), the model's injective stand-in for
 * `datetime.isoformat()`.  `ParseDt` follows the scheduler's `_parse_dt`:
 * strip whitespace, drop a trailing "+HH:MM"/"-HH:MM" offset, delete every
 * 'Z', then accept "<day>T<HH>:<MM>:<SS>", "<day>T<HH>:<MM>",
 * "<day> <HH>:<MM>:<SS>" or "<day> <HH>:<MM>".
 */
module Time {
  import opened Wrappers
  import opened Text

  type Instant = nat

  const SecondsPerMinute: nat := 60
  const SecondsPerHour: nat := 3600
  const SecondsPerDay: nat := 86400

  function Day(t: Instant): nat { t / 86400 }

  function TimeOfDay(t: Instant): nat { t % 86400 }

  /** 0 is Monday, ..., 6 is Sunday. */
  function Weekday(t: Instant): nat { Day(t) % 7 }

  function Hour(t: Instant): nat { TimeOfDay(t) / 3600 }

  function MinuteOf(t: Instant): nat { TimeOfDay(t) % 3600 / 60 }

  function SecondOf(t: Instant): nat { TimeOfDay(t) % 60 }

  /** The instant at `h:m:s` on day number `day`. */
  function At(day: nat, h: nat, m: nat, s: nat): (t: Instant)
    requires h < 24 && m < 60 && s < 60
    ensures Day(t) == day && Hour(t) == h && MinuteOf(t) == m && SecondOf(t) == s
    ensures TimeOfDay(t) == h * 3600 + m * 60 + s
  {
    day * 86400 + h * 3600 + m * 60 + s
  }

  lemma PartsAt(t: Instant)
    ensures Hour(t) < 24 && MinuteOf(t) < 60 && SecondOf(t) < 60
    ensures At(Day(t), Hour(t), MinuteOf(t), SecondOf(t)) == t
  {
    var r := TimeOfDay(t);
    assert t == Day(t) * 86400 + r;
    var r2 := r % 3600;
    assert r == Hour(t) * 3600 + r2;
    assert r2 % 60 == r % 60 by {
      assert r == Hour(t) * 60 * 60 + r2;
    }
    assert r2 == MinuteOf(t) * 60 + SecondOf(t);
  }

  // ---------------------------------------------------------------------------
  // Text form

  function DateText(day: nat): string { Digits(day) }

  /** `datetime.isoformat()` of an instant with whole seconds. */
  function Iso(t: Instant): string {
    PartsAt(t);
    DateText(Day(t)) + "T" + StampClock(Hour(t), MinuteOf(t), SecondOf(t), true)
  }

  /** Length of the longest all-digit prefix of `s`. */
  function DigitRun(s: string): (k: nat)
    ensures k <= |s| && AllDigits(s[..k])
    ensures k < |s| ==> !IsDigit(s[k])
    decreases |s|
  {
    if s != [] && IsDigit(s[0]) then
      var k := 1 + DigitRun(s[1..]);
      assert s[..k] == [s[0]] + s[1..][..k - 1];
      k
    else 0
  }

  /** "HH:MM" (`withSeconds` false) or "HH:MM:SS", as seconds into the day. */
  function ParseClock(c: string, withSeconds: bool): (r: Option<nat>)
    ensures r.Some? ==> r.value < 86400
  {
    if |c| != (if withSeconds then 8 else 5) then None
    else if !(IsDigit(c[0]) && IsDigit(c[1]) && c[2] == ':' && IsDigit(c[3]) && IsDigit(c[4])) then None
    else if withSeconds && !(c[5] == ':' && IsDigit(c[6]) && IsDigit(c[7])) then None
    else
      var h := PairValue(c[0], c[1]);
      var m := PairValue(c[3], c[4]);
      var s := if withSeconds then PairValue(c[6], c[7]) else 0;
      if h < 24 && m < 60 && s < 60 then Some(h * 3600 + m * 60 + s) else None
  }

  /** The instant `secondOfDay` seconds into day number `day`. */
  function Moment(day: nat, secondOfDay: nat): Instant { day * 86400 + secondOfDay }

  /** One of the strptime formats: "<day><sep>HH:MM" or "<day><sep>HH:MM:SS". */
  function ParseFormat(s: string, sep: char, withSeconds: bool): Option<Instant> {
    var k := DigitRun(s);
    if k == 0 || k == |s| || s[k] != sep then None
    else match ParseClock(s[k + 1..], withSeconds)
      case None => None
      case Some(c) => Some(Moment(NumberValue(s[..k]), c))
  }

  /** A strptime format the scheduler tries: the date-time separator and whether seconds are present. */
  datatype Format = Format(sep: char, withSeconds: bool)

  /** The formats of `_parse_dt`, in its order. */
  const Formats: seq<Format> := [Format('T', true), Format('T', false), Format(' ', true), Format(' ', false)]

  /** The loop of `_parse_dt`: the first format that parses wins. */
  function TryFormats(s: string, fs: seq<Format>): (r: Option<Instant>)
    ensures fs == [] ==> r == None
    decreases |fs|
  {
    if fs == [] then None
    else
      var a := ParseFormat(s, fs[0].sep, fs[0].withSeconds);
      if a.Some? then a else TryFormats(s, fs[1..])
  }

  function ParseNaive(s: string): Option<Instant> {
    TryFormats(s, Formats)
  }

  predicate IsSign(c: char) { c == '+' || c == '-' }

  /** `s` ends with "+HH:MM" or "-HH:MM" (the regex `[+-]\d{2}:\d{2}$`). */
  predicate EndsWithOffset(s: string) {
    var n := |s|;
    n >= 6 && IsSign(s[n - 6]) && IsDigit(s[n - 5]) && IsDigit(s[n - 4]) && s[n - 3] == ':'
    && IsDigit(s[n - 2]) && IsDigit(s[n - 1])
  }

  /** Drops a trailing UTC offset. */
  function StripOffset(s: string): (r: string)
    ensures EndsWithOffset(s) ==> r == s[..|s| - 6]
    ensures !EndsWithOffset(s) ==> r == s
  {
    if EndsWithOffset(s) then s[..|s| - 6] else s
  }

  /** `s.replace("Z", "")`. */
  function RemoveZ(s: string): (r: string)
    ensures 'Z' !in r
    ensures |r| <= |s|
    decreases |s|
  {
    if s == [] then [] else (if s[0] == 'Z' then [] else [s[0]]) + RemoveZ(s[1..])
  }

  /** The zone-free text `_parse_dt` hands to strptime. */
  function StripZone(s: string): (r: string)
    ensures 'Z' !in r
  {
    RemoveZ(StripOffset(Strip(s)))
  }

  /** The scheduler's `_parse_dt`: None where Python raises ValueError. */
  function ParseDt(s: string): Option<Instant> {
    ParseNaive(StripZone(s))
  }

  // ---------------------------------------------------------------------------
  // Round trips

  lemma {:induction false} RemoveZAppend(a: string, b: string)
    ensures RemoveZ(a + b) == RemoveZ(a) + RemoveZ(b)
    decreases |a|
  {
    var ab := a + b;
    if a == [] {
      assert ab == b;
    } else {
      var head := if a[0] == 'Z' then [] else [a[0]];
      assert ab[0] == a[0];
      assert ab[1..] == a[1..] + b;
      RemoveZAppend(a[1..], b);
      ConcatAssoc(head, RemoveZ(a[1..]), RemoveZ(b));
    }
  }

  lemma {:induction false} RemoveZNoZ(s: string)
    requires 'Z' !in s
    ensures RemoveZ(s) == s
    decreases |s|
  {
    if s != [] {
      RemoveZNoZ(s[1..]);
    }
  }

  lemma DigitRunDigits(n: nat, rest: string)
    requires rest != [] && !IsDigit(rest[0])
    ensures DigitRun(Digits(n) + rest) == |Digits(n)|
  {
    DigitRunAllDigits(Digits(n), rest);
  }

  lemma {:induction false} DigitRunAllDigits(d: string, rest: string)
    requires AllDigits(d)
    requires rest != [] && !IsDigit(rest[0])
    ensures DigitRun(d + rest) == |d|
    decreases |d|
  {
    var s := d + rest;
    if d == [] {
      assert s == rest;
    } else {
      assert s[0] == d[0];
      assert s[1..] == d[1..] + rest;
      assert AllDigits(d[1..]) by {
        forall i | 0 <= i < |d| - 1 ensures IsDigit(d[1..][i]) {
          assert d[1..][i] == d[i + 1];
        }
      }
      DigitRunAllDigits(d[1..], rest);
    }
  }

  /** The text "<day><sep>HH:MM[:SS]" parses back under that one format. */
  lemma ParseFormatStamp(day: nat, sep: char, h: nat, m: nat, s: nat, withSeconds: bool)
    requires h < 24 && m < 60 && s < 60 && !IsDigit(sep)
    requires !withSeconds ==> s == 0
    ensures ParseFormat(DateText(day) + [sep] + StampClock(h, m, s, withSeconds), sep, withSeconds)
            == Some(At(day, h, m, s))
  {
    var clock := StampClock(h, m, s, withSeconds);
    NumberValueDigits(day);
    ParseClockStamp(h, m, s, withSeconds);
    FormatFromParts(DateText(day), sep, clock, withSeconds, day, h * 3600 + m * 60 + s);
    assert Moment(day, h * 3600 + m * 60 + s) == At(day, h, m, s);
  }

  /** The format reads a date run, the separator and a clock as the day's start plus the clock. */
  lemma FormatFromParts(d: string, sep: char, clock: string, withSeconds: bool, day: nat, secondOfDay: nat)
    requires |d| >= 1 && AllDigits(d) && !IsDigit(sep)
    requires NumberValue(d) == day && ParseClock(clock, withSeconds) == Some(secondOfDay)
    ensures ParseFormat(d + [sep] + clock, sep, withSeconds) == Some(Moment(day, secondOfDay))
  {
    var text := d + [sep] + clock;
    var k := |d|;
    StampSplits(d, sep, clock);
    assert text[k + 1..] == clock && text[..k] == d;
    var c := ParseClock(text[k + 1..], withSeconds);
    assert c == ParseClock(clock, withSeconds);
    assert ParseFormat(text, sep, withSeconds) == Some(Moment(NumberValue(text[..k]), c.value));
  }

  /** A run of digits, a non-digit separator and the rest: the digit run ends at the separator. */
  lemma StampSplits(d: string, sep: char, rest: string)
    requires |d| >= 1 && AllDigits(d) && !IsDigit(sep)
    ensures var text := d + [sep] + rest;
      && DigitRun(text) == |d| && text[|d|] == sep
      && text[..|d|] == d && text[|d| + 1..] == rest
  {
    var text := d + [sep] + rest;
    assert text == d + ([sep] + rest);
    DigitRunAllDigits(d, [sep] + rest);
    assert text[..|d|] == d;
    assert text[|d| + 1..] == rest;
  }

  /** "HH:MM" or "HH:MM:SS" written from h, m and s reads back as that many seconds into the day. */
  lemma ParseClockStamp(h: nat, m: nat, s: nat, withSeconds: bool)
    requires h < 24 && m < 60 && s < 60
    requires !withSeconds ==> s == 0
    ensures ParseClock(StampClock(h, m, s, withSeconds), withSeconds) == Some(h * 3600 + m * 60 + s)
  {
    TwoValue(h);
    TwoValue(m);
    TwoValue(s);
  }

  function StampClock(h: nat, m: nat, s: nat, withSeconds: bool): string
    requires h < 100 && m < 100 && s < 100
  {
    Two(h) + ":" + Two(m) + (if withSeconds then ":" + Two(s) else "")
  }

  lemma IsoShape(t: Instant)
    ensures Iso(t) == DateText(Day(t)) + ['T'] + StampClock(Hour(t), MinuteOf(t), SecondOf(t), true)
    ensures IsDigit(Iso(t)[0]) && IsDigit(Iso(t)[|Iso(t)| - 1])
    ensures 'Z' !in Iso(t)
    ensures !EndsWithOffset(Iso(t))
  {
    PartsAt(t);
    var d := DateText(Day(t));
    var c := StampClock(Hour(t), MinuteOf(t), SecondOf(t), true);
    assert Iso(t) == d + ['T'] + c;
    ClockShape(Hour(t), MinuteOf(t), SecondOf(t));
    StampShape(d, c);
  }

  /** A clock with seconds is "HH:MM:SS": no 'Z', a ':' third, a digit last. */
  lemma ClockShape(h: nat, m: nat, s: nat)
    requires h < 100 && m < 100 && s < 100
    ensures var c := StampClock(h, m, s, true);
      |c| == 8 && c[2] == ':' && c[5] == ':' && IsDigit(c[7]) && 'Z' !in c
  {
    DigitsHaveNo(Two(h), 'Z');
    DigitsHaveNo(Two(m), 'Z');
    DigitsHaveNo(Two(s), 'Z');
  }

  /** Date digits, 'T' and such a clock: digits at both ends, no 'Z' and no offset. */
  lemma StampShape(d: string, c: string)
    requires |d| >= 1 && AllDigits(d)
    requires |c| == 8 && c[2] == ':' && IsDigit(c[7]) && 'Z' !in c
    ensures var i := d + ['T'] + c; IsDigit(i[0]) && IsDigit(i[|i| - 1]) && i[|i| - 3] == c[5]
    ensures 'Z' !in d + ['T'] + c
    ensures !EndsWithOffset(d + ['T'] + c)
  {
    var i := d + ['T'] + c;
    assert i[|i| - 3] == c[5];
    DigitsHaveNo(d, 'Z');
    NotInJoin(d, 'T', c, 'Z');
    assert i[|i| - 6] == c[2];
    assert !EndsWithOffset(i);
    assert i[0] == d[0];
    assert i[|i| - 1] == c[7];
  }

  /** An ISO stamp holds digits, 'T' and ':' only, so never a '['. */
  lemma IsoNoBracket(t: Instant)
    ensures '[' !in Iso(t)
  {
    PartsAt(t);
    var d := DateText(Day(t));
    var h := Two(Hour(t));
    var m := Two(MinuteOf(t));
    var sec := Two(SecondOf(t));
    DigitsHaveNo(d, '[');
    DigitsHaveNo(h, '[');
    DigitsHaveNo(m, '[');
    DigitsHaveNo(sec, '[');
    assert Iso(t) == d + "T" + h + ":" + m + ":" + sec;
  }

  /** Text with a digit at either end, no offset and no 'Z' goes through the zone handling unchanged. */
  lemma StripZoneClean(s: string)
    requires |s| >= 1 && IsDigit(s[0]) && IsDigit(s[|s| - 1])
    requires !EndsWithOffset(s) && 'Z' !in s
    ensures StripZone(s) == s
  {
    StripDigitEnds(s);
    RemoveZNoZ(s);
  }

  /** `_parse_dt` reads back what `isoformat()` wrote: the encoding is injective. */
  lemma ParseDtIso(t: Instant)
    ensures ParseDt(Iso(t)) == Some(t)
  {
    PartsAt(t);
    ParseDtStamp(Day(t), Hour(t), MinuteOf(t), SecondOf(t));
  }

  /** `_parse_dt` reads a stamp "<day>THH:MM:SS" as that moment, through the first format it tries. */
  lemma ParseDtStamp(day: nat, h: nat, m: nat, s: nat)
    requires h < 24 && m < 60 && s < 60
    ensures ParseDt(DateText(day) + "T" + StampClock(h, m, s, true)) == Some(At(day, h, m, s))
  {
    var d := DateText(day);
    var c := StampClock(h, m, s, true);
    var x := d + ['T'] + c;
    assert d + "T" + c == x;
    assert StripZone(x) == x by {
      ClockShape(h, m, s);
      StampShape(d, c);
      StripZoneClean(x);
    }
    assert ParseFormat(x, 'T', true) == Some(At(day, h, m, s)) by {
      ParseFormatStamp(day, 'T', h, m, s, true);
    }
    ParseDtFirstFormat(x, At(day, h, m, s));
  }

  /** Zone-free text the first format reads is read by `_parse_dt` as that format reads it. */
  lemma ParseDtFirstFormat(x: string, v: Instant)
    requires StripZone(x) == x && ParseFormat(x, 'T', true) == Some(v)
    ensures ParseDt(x) == Some(v)
  {
  }

  lemma IsoInjective(t: Instant, u: Instant)
    requires Iso(t) == Iso(u)
    ensures t == u
  {
    ParseDtIso(t);
    ParseDtIso(u);
  }

  /** A trailing 'Z' is ignored: timestamps are compared as naive local times. */
  lemma ParseDtUtcSuffix(t: Instant)
    ensures ParseDt(Iso(t) + "Z") == Some(t)
  {
    var i := Iso(t);
    IsoShape(t);
    UtcSuffixZone(i);
    ParseDtIso(t);
    ParseDtSameZone(i + "Z", i);
  }

  /** Digit-bounded zone-free text keeps its zone handling when a 'Z' follows it. */
  lemma UtcSuffixZone(i: string)
    requires |i| >= 5 && IsDigit(i[0]) && IsDigit(i[|i| - 1])
    requires 'Z' !in i && !EndsWithOffset(i)
    ensures StripZone(i + "Z") == StripZone(i)
  {
    UtcSuffixKept(i);
    RemoveTrailingZ(i);
    StripZoneClean(i);
  }

  /** A 'Z' after a digit-bounded text leaves nothing to strip and no offset. */
  lemma UtcSuffixKept(i: string)
    requires |i| >= 5 && IsDigit(i[0]) && IsDigit(i[|i| - 1])
    ensures Strip(i + "Z") == i + "Z" && StripOffset(i + "Z") == i + "Z"
  {
    var z := i + "Z";
    assert z[|z| - 6] == i[|i| - 5];
    assert StripOffset(z) == z;
    assert z[0] == i[0];
    DigitNotSpace(z[0]);
    StripNoSpace(z);
  }

  lemma RemoveTrailingZ(i: string)
    requires 'Z' !in i
    ensures RemoveZ(i + "Z") == i
  {
    RemoveZAppend(i, "Z");
    RemoveZNoZ(i);
  }

  /** Zone-free text is read by the formats alone. */
  lemma ParseDtClean(x: string)
    requires StripZone(x) == x
    ensures ParseDt(x) == ParseNaive(x)
  {
  }

  /** Texts that agree once their zone is handled are read alike. */
  lemma ParseDtSameZone(z: string, i: string)
    requires StripZone(z) == StripZone(i)
    ensures ParseDt(z) == ParseDt(i)
  {
  }

  /** A trailing "+HH:MM" or "-HH:MM" offset is dropped, not applied. */
  lemma ParseDtOffsetSuffix(t: Instant, sign: char, oh: nat, om: nat)
    requires IsSign(sign) && oh < 100 && om < 100
    ensures ParseDt(Iso(t) + [sign] + Two(oh) + ":" + Two(om)) == Some(t)
  {
    var i := Iso(t);
    var tail := [sign] + Two(oh) + ":" + Two(om);
    OffsetAppend(i, sign, oh, om);
    IsoShape(t);
    OffsetSuffixZone(i, tail);
    ParseDtIso(t);
    ParseDtSameZone(i + tail, i);
  }

  lemma OffsetAppend(i: string, sign: char, oh: nat, om: nat)
    requires oh < 100 && om < 100
    ensures var tail := [sign] + Two(oh) + ":" + Two(om);
      i + [sign] + Two(oh) + ":" + Two(om) == i + tail && |tail| == 6 && EndsWithOffset(tail) == IsSign(sign)
  {
    ConcatAssoc(i, [sign], Two(oh));
    ConcatAssoc(i, [sign] + Two(oh), ":");
    ConcatAssoc(i, [sign] + Two(oh) + ":", Two(om));
  }

  /** Digit-bounded zone-free text keeps its zone handling when an offset follows it. */
  lemma OffsetSuffixZone(i: string, tail: string)
    requires |tail| == 6 && EndsWithOffset(tail)
    requires |i| >= 1 && IsDigit(i[0]) && IsDigit(i[|i| - 1])
    requires 'Z' !in i && !EndsWithOffset(i)
    ensures StripZone(i + tail) == StripZone(i)
  {
    OffsetSuffixDropped(i, tail);
    RemoveZNoZ(i);
    StripZoneClean(i);
  }

  /** An offset after a digit-started text leaves nothing to strip and is itself dropped. */
  lemma OffsetSuffixDropped(i: string, tail: string)
    requires |tail| == 6 && EndsWithOffset(tail)
    requires |i| >= 1 && IsDigit(i[0])
    ensures Strip(i + tail) == i + tail && StripOffset(i + tail) == i
  {
    var z := i + tail;
    assert z[0] == i[0];
    assert z[|z| - 1] == tail[5];
    assert z[|z| - 6] == tail[0] && z[|z| - 5] == tail[1] && z[|z| - 4] == tail[2];
    assert z[|z| - 3] == tail[3] && z[|z| - 2] == tail[4];
    assert StripOffset(z) == i by {
      assert EndsWithOffset(z);
      assert z[..|z| - 6] == i;
    }
    StripDigitEnds(z);
  }

  /** A clock part of the wrong length fails the format, whatever the separator. */
  lemma ParseFormatClockLength(day: nat, sep: char, rest: string, sep2: char, withSeconds: bool)
    requires !IsDigit(sep)
    requires |rest| != (if withSeconds then 8 else 5)
    ensures ParseFormat(DateText(day) + [sep] + rest, sep2, withSeconds) == None
  {
    var text := DateText(day) + [sep] + rest;
    var k := |DateText(day)|;
    DigitRunDigits(day, [sep] + rest);
    assert text == DateText(day) + ([sep] + rest);
    assert text[k] == sep;
    assert text[k + 1..] == rest;
  }

  /** Only the layouts listed in `_parse_dt` are accepted: a longer clock part is rejected. */
  lemma ParseNaiveClockLength(day: nat, rest: string)
    requires |rest| != 8 && |rest| != 5
    ensures ParseNaive(DateText(day) + "T" + rest) == None
  {
    ParseFormatClockLength(day, 'T', rest, 'T', true);
    ParseFormatClockLength(day, 'T', rest, 'T', false);
    ParseFormatClockLength(day, 'T', rest, ' ', true);
    ParseFormatClockLength(day, 'T', rest, ' ', false);
  }
}
