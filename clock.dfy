/** Times of day, moments, and the two textual forms the slot picker shows:
    the stored `HH:MM` and the 12-hour display `h:MM AM`. */
module Clock {
  import opened Wrappers
  import opened Text

  const MinutesPerDay: int := 24 * 60

  /** A time of day on the 24-hour clock. */
  datatype Time = Time(hour: int, minute: int) {
    predicate Valid()
    {
      0 <= hour < 24 && 0 <= minute < 60
    }

    /** Minutes since midnight. */
    function Minutes(): int
    {
      hour * 60 + minute
    }
  }

  /** A moment in local time: a calendar day number and the minutes since that
      day's midnight. */
  datatype Instant = Instant(day: int, minute: int) {
    predicate Valid()
    {
      0 <= minute < MinutesPerDay
    }

    /** Minutes since the start of day 0: the order of moments. */
    function Stamp(): int
    {
      day * MinutesPerDay + minute
    }
  }

  /** The moment `t` on day `day`, as `new Date(`${date}T${start}:00`)` builds it. */
  function At(day: int, t: Time): (r: Instant)
    requires t.Valid()
    ensures r.Valid() && r.day == day && r.Stamp() == day * MinutesPerDay + t.Minutes()
  {
    Instant(day, t.Minutes())
  }

  /** `String(n).padStart(2, '0')` for `n < 100`. */
  function Pad2(n: int): (r: string)
    requires 0 <= n < 100
    ensures |r| == 2
  {
    [DigitChar(n / 10), DigitChar(n % 10)]
  }

  /** The padded form is two digits that read back as `n`. */
  lemma Pad2Reads(n: int)
    requires 0 <= n < 100
    ensures AllDigits(Pad2(n)) && NumeralValue(Pad2(n)) == n
  {
    NumeralValueOfTwo(Pad2(n));
  }

  /** The stored form of a time: two-digit hour, `:`, two-digit minute. */
  function FormatHHMM(t: Time): (r: string)
    requires t.Valid()
    ensures |r| == 5 && r[2] == ':'
  {
    Pad2(t.hour) + ":" + Pad2(t.minute)
  }

  /** The stored form reads back as the same time, and holds no `-`. */
  lemma FormatParseRoundTrip(t: Time)
    requires t.Valid()
    ensures '-' !in FormatHHMM(t)
    ensures ParseHHMM(FormatHHMM(t)) == Some(t)
  {
    var r := FormatHHMM(t);
    Pad2Reads(t.hour);
    Pad2Reads(t.minute);
    assert r[..2] == Pad2(t.hour) && r[3..] == Pad2(t.minute);
  }

  /** Reads a stored `HH:MM` time; anything else yields `None`. */
  function ParseHHMM(s: string): (r: Option<Time>)
    ensures r.Some? ==> r.value.Valid()
  {
    if |s| == 5 && s[2] == ':' && AllDigits(s[..2]) && AllDigits(s[3..]) then
      var t := Time(NumeralValue(s[..2]), NumeralValue(s[3..]));
      if t.Valid() then Some(t) else None
    else None
  }

  /** A string that reads as a time is exactly that time's stored form. */
  lemma ParsedIsFormatted(s: string)
    requires ParseHHMM(s).Some?
    ensures FormatHHMM(ParseHHMM(s).value) == s
  {
    var t := ParseHHMM(s).value;
    TwoDigitsRoundTrip(s[..2]);
    TwoDigitsRoundTrip(s[3..]);
    assert s == s[..2] + ":" + s[3..];
  }

  lemma TwoDigitsRoundTrip(d: string)
    requires |d| == 2 && AllDigits(d)
    ensures NumeralValue(d) < 100 && Pad2(NumeralValue(d)) == d
  {
    NumeralValueOfTwo(d);
    DigitCharOfValue(d[0]);
    DigitCharOfValue(d[1]);
  }

  /** The end of a slot of `hours` hours that starts at `start`: `setHours` on the
      start time, read back as a time of day. */
  function EndTime(start: Time, hours: nat): (r: Time)
    requires start.Valid()
    ensures r.Valid() && r.minute == start.minute
  {
    Time((start.hour + hours) % 24, start.minute)
  }

  /** The end lies `hours` hours after the start, wrapping round midnight. */
  lemma EndTimeWraps(start: Time, hours: nat)
    requires start.Valid()
    ensures EndTime(start, hours).Minutes() == (start.Minutes() + 60 * hours) % MinutesPerDay
  {
    var x := start.hour + hours;
    var h, q := x % 24, x / 24;
    assert x == 24 * q + h;
    DayRemainder(start.Minutes() + 60 * hours, q, 60 * h + start.minute);
  }

  /** The remainder modulo a day is the only value in range that differs by whole days. */
  lemma DayRemainder(a: int, q: int, r: int)
    requires a == 1440 * q + r && 0 <= r < 1440
    ensures a % MinutesPerDay == r
  {
  }

  /** `computeEndTime`: the time one hour (sixty minutes) after `start`, or nothing
      for an empty start. */
  function ComputeEndTime(start: Option<Time>): (r: Option<Time>)
    requires start.Some? ==> start.value.Valid()
  {
    match start
    case None => None
    case Some(t) =>
      var n := (t.Minutes() + 60) % MinutesPerDay;
      Some(Time(n / 60, n % 60))
  }

  /** Adding sixty minutes agrees with a one-hour slot's end time. */
  lemma ComputeEndTimeIsOneHourSlot(t: Time)
    requires t.Valid()
    ensures ComputeEndTime(Some(t)) == Some(EndTime(t, 1))
  {
    var e := EndTime(t, 1);
    EndTimeWraps(t, 1);
    var n := (t.Minutes() + 60) % MinutesPerDay;
    assert n == 60 * e.hour + e.minute;
    assert n / 60 == e.hour && n % 60 == e.minute;
  }

  /** The hour on a 12-hour clock face: `h % 12 || 12`. */
  function Hour12(h: int): (r: int)
    requires 0 <= h < 24
    ensures 1 <= r <= 12 && r % 12 == h % 12
  {
    if h % 12 == 0 then 12 else h % 12
  }

  /** `formatDisplay`: `h:MM AM` or `h:MM PM`, the hour without a leading zero. */
  function FormatDisplay(t: Time): string
    requires t.Valid()
  {
    Numeral(Hour12(t.hour)) + ":" + Pad2(t.minute) + " " + (if t.hour >= 12 then "PM" else "AM")
  }

  /** The display reads back as the time it shows. */
  lemma DisplayRoundTrip(t: Time)
    requires t.Valid()
    ensures ParseDisplay(FormatDisplay(t)) == Some(t)
  {
    var hourText, ampm := Numeral(Hour12(t.hour)), if t.hour >= 12 then "PM" else "AM";
    Pad2Reads(t.minute);
    DisplayParts(hourText, Pad2(t.minute), ampm);
    Hour12Back(t.hour);
  }

  /** The pieces of `h:MM AM` sit where the reader looks for them. */
  lemma DisplayParts(hourText: string, minuteText: string, ampm: string)
    requires |hourText| >= 1 && |minuteText| == 2 && |ampm| == 2
    ensures var r, n := hourText + ":" + minuteText + " " + ampm, |hourText| + 6;
            && |r| == n && r[..n - 6] == hourText && r[n - 6] == ':' && r[n - 5..n - 3] == minuteText
            && r[n - 3] == ' ' && r[n - 2..] == ampm
  {
    var r, n := hourText + ":" + minuteText + " " + ampm, |hourText| + 6;
    assert r[..n - 6] == hourText;
    assert r[n - 5..n - 3] == minuteText;
    assert r[n - 2..] == ampm;
  }

  /** The clock-face hour and the half of the day give back the 24-hour hour. */
  lemma Hour12Back(h: int)
    requires 0 <= h < 24
    ensures Hour12(h) % 12 + (if h >= 12 then 12 else 0) == h
  {
  }

  /** Reads a 12-hour display back into a time of day. */
  function ParseDisplay(s: string): (r: Option<Time>)
    ensures r.Some? ==> r.value.Valid()
  {
    var n := |s|;
    if n >= 7 && s[n - 6] == ':' && s[n - 3] == ' ' && (s[n - 2..] == "AM" || s[n - 2..] == "PM")
       && AllDigits(s[..n - 6]) && AllDigits(s[n - 5..n - 3]) then
      var h12, m := NumeralValue(s[..n - 6]), NumeralValue(s[n - 5..n - 3]);
      if 1 <= h12 <= 12 && m < 60 then
        Some(Time(h12 % 12 + (if s[n - 2..] == "PM" then 12 else 0), m))
      else None
    else None
  }

  /** The key of a slot, as the value of its radio button: `start-end`. */
  function SlotKey(start: Time, end: Time): (r: string)
    requires start.Valid() && end.Valid()
    ensures |r| == 11
  {
    FormatHHMM(start) + "-" + FormatHHMM(end)
  }

  /** The key is the stored start, a `-`, and the stored end. */
  lemma SlotKeyParts(start: Time, end: Time)
    requires start.Valid() && end.Valid()
    ensures SlotKey(start, end)[5] == '-'
    ensures SlotKey(start, end)[..5] == FormatHHMM(start) && SlotKey(start, end)[6..] == FormatHHMM(end)
  {
  }
}
