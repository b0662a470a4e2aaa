/**
 * Second-resolution timestamps: the fixed `%Y-%m-%d %H:%M:%S` text the log
 * generator writes, the subset of `pd.to_datetime` that reads it back, and
 * `dt.floor('T')`.
 */
module Timestamps {
  import opened Wrappers
  import opened Decimal

  datatype Timestamp = Timestamp(year: int, month: int, day: int, hour: int, minute: int, second: int)

  predicate IsLeapYear(y: int)
  {
    y % 4 == 0 && (y % 100 != 0 || y % 400 == 0)
  }

  function DaysInMonth(y: int, m: int): (days: int)
    requires 1 <= m <= 12
  {
    if m == 2 then (if IsLeapYear(y) then 29 else 28)
    else if m == 4 || m == 6 || m == 9 || m == 11 then 30
    else 31
  }

  /** A calendar date and a time of day that exist. */
  predicate Valid(t: Timestamp)
  {
    && 1 <= t.month <= 12
    && 1 <= t.day <= DaysInMonth(t.year, t.month)
    && 0 <= t.hour < 24
    && 0 <= t.minute < 60
    && 0 <= t.second < 60
  }

  /** Chronological order, which on valid timestamps is field-by-field lexicographic order. */
  predicate TimeLess(a: Timestamp, b: Timestamp)
  {
    if a.year != b.year then a.year < b.year
    else if a.month != b.month then a.month < b.month
    else if a.day != b.day then a.day < b.day
    else if a.hour != b.hour then a.hour < b.hour
    else if a.minute != b.minute then a.minute < b.minute
    else a.second < b.second
  }

  /** First and last whole second that a nanosecond `pd.Timestamp` can hold. */
  const Earliest := Timestamp(1677, 9, 21, 0, 12, 44)
  const Latest := Timestamp(2262, 4, 11, 23, 47, 16)

  predicate InPandasRange(t: Timestamp)
  {
    !TimeLess(t, Earliest) && !TimeLess(Latest, t)
  }

  /** `dt.floor('T')`: the start of the minute holding `t`. */
  function FloorToMinute(t: Timestamp): (floored: Timestamp)
  {
    t.(second := 0)
  }

  /** `strftime("%Y-%m-%d")`. */
  function DateText(t: Timestamp): (text: string)
    requires Valid(t) && InPandasRange(t)
  {
    Pad4(t.year) + "-" + Pad2(t.month) + "-" + Pad2(t.day)
  }

  /** `strftime("%H:%M:%S")`. */
  function TimeText(t: Timestamp): (text: string)
    requires Valid(t)
  {
    Pad2(t.hour) + ":" + Pad2(t.minute) + ":" + Pad2(t.second)
  }

  /** `strftime("%Y-%m-%d %H:%M:%S")`, as the log generator writes timestamps. */
  function FormatTimestamp(t: Timestamp): (text: string)
    requires Valid(t) && InPandasRange(t)
  {
    DateText(t) + " " + TimeText(t)
  }

  /**
   * `pd.to_datetime` on one `YYYY-MM-DD HH:MM:SS` string: fails on any other
   * shape, on a date or time that does not exist, and outside pandas' range.
   */
  function ParseDateTime(s: string): (r: Option<Timestamp>)
    ensures r.Some? ==> Valid(r.value) && InPandasRange(r.value)
  {
    if && |s| == 19
       && s[4] == '-' && s[7] == '-' && s[10] == ' ' && s[13] == ':' && s[16] == ':'
       && AllDigits(s[0..4]) && AllDigits(s[5..7]) && AllDigits(s[8..10])
       && AllDigits(s[11..13]) && AllDigits(s[14..16]) && AllDigits(s[17..19])
    then
      var t := Timestamp(Number(s[0..4]), Number(s[5..7]), Number(s[8..10]),
                         Number(s[11..13]), Number(s[14..16]), Number(s[17..19]));
      if Valid(t) && InPandasRange(t) then Some(t) else None
    else
      None
  }

  lemma TimeLessIsStrictTotalOrder()
    ensures forall a :: !TimeLess(a, a)
    ensures forall a, b, c :: TimeLess(a, b) && TimeLess(b, c) ==> TimeLess(a, c)
    ensures forall a, b :: a != b ==> TimeLess(a, b) || TimeLess(b, a)
  {
  }

  /**
   * The floor is a minute boundary not after `t`, and no minute boundary
   * not after `t` is later than it.
   */
  lemma FloorIsLatestMinuteNotAfter(t: Timestamp, u: Timestamp)
    requires Valid(t)
    ensures FloorToMinute(t).second == 0 && !TimeLess(t, FloorToMinute(t))
    ensures u.second == 0 && !TimeLess(t, u) ==> !TimeLess(FloorToMinute(t), u)
    ensures FloorToMinute(FloorToMinute(t)) == FloorToMinute(t)
  {
  }

  /** Reading back what the generator wrote gives the same timestamp. */
  lemma ParseFormatRoundTrip(t: Timestamp)
    requires Valid(t) && InPandasRange(t)
    ensures ParseDateTime(FormatTimestamp(t)) == Some(t)
  {
    var s := FormatTimestamp(t);
    assert s[0..4] == Pad4(t.year);
    assert s[5..7] == Pad2(t.month);
    assert s[8..10] == Pad2(t.day);
    assert s[11..13] == Pad2(t.hour);
    assert s[14..16] == Pad2(t.minute);
    assert s[17..19] == Pad2(t.second);
    Pad4Number(t.year);
    Pad2Number(t.month);
    Pad2Number(t.day);
    Pad2Number(t.hour);
    Pad2Number(t.minute);
    Pad2Number(t.second);
  }
}
