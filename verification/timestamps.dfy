/** Naive calendar timestamps (no time zone), their chronological order, and the
    strict `%Y-%m-%dT%H:%M:%S` text form. */
module Timestamps {
  import opened Wrappers
  import opened Decimal

  datatype Timestamp = Timestamp(year: int, month: int, day: int, hour: int, minute: int, second: int)

  /** Gregorian leap years. */
  predicate IsLeapYear(y: int) {
    y % 4 == 0 && (y % 100 != 0 || y % 400 == 0)
  }

  function DaysInMonth(y: int, m: int): (d: int)
    requires 1 <= m <= 12
    ensures 28 <= d <= 31
    ensures d == 29 <==> m == 2 && IsLeapYear(y)
  {
    if m == 2 then (if IsLeapYear(y) then 29 else 28)
    else if m == 4 || m == 6 || m == 9 || m == 11 then 30
    else 31
  }

  /** The timestamps a `datetime` can hold: years 1 to 9999, real calendar days,
      and seconds up to 59 (leap seconds are refused). */
  predicate Valid(t: Timestamp) {
    && 1 <= t.year <= 9999
    && 1 <= t.month <= 12
    && 1 <= t.day <= DaysInMonth(t.year, t.month)
    && 0 <= t.hour <= 23
    && 0 <= t.minute <= 59
    && 0 <= t.second <= 59
  }

  /** Strictly earlier: lexicographic on (year, month, day, hour, minute, second). */
  predicate Before(a: Timestamp, b: Timestamp) {
    if a.year != b.year then a.year < b.year
    else if a.month != b.month then a.month < b.month
    else if a.day != b.day then a.day < b.day
    else if a.hour != b.hour then a.hour < b.hour
    else if a.minute != b.minute then a.minute < b.minute
    else a.second < b.second
  }

  /** Earlier or the same instant. */
  predicate NotAfter(a: Timestamp, b: Timestamp) {
    !Before(b, a)
  }

  /** `NotAfter` is a total order on timestamps: any two are comparable, */
  lemma NotAfterTotal(a: Timestamp, b: Timestamp)
    ensures NotAfter(a, b) || NotAfter(b, a)
  {
  }

  /** it is transitive, */
  lemma NotAfterTransitive(a: Timestamp, b: Timestamp, c: Timestamp)
    requires NotAfter(a, b) && NotAfter(b, c)
    ensures NotAfter(a, c)
  {
  }

  /** and two timestamps not after each other are the same timestamp. */
  lemma NotAfterAntisymmetric(a: Timestamp, b: Timestamp)
    requires NotAfter(a, b) && NotAfter(b, a)
    ensures a == b
  {
  }

  /** The letter between date and time; strptime matches it ignoring case. */
  predicate IsDateTimeSeparator(c: char) {
    c == 'T' || c == 't'
  }

  /** The shape `DDDD-DD-DDTDD:DD:DD`, D a digit. */
  predicate HasStrictShape(s: string) {
    && |s| == 19
    && AllDigits(s[0..4]) && s[4] == '-'
    && AllDigits(s[5..7]) && s[7] == '-'
    && AllDigits(s[8..10]) && IsDateTimeSeparator(s[10])
    && AllDigits(s[11..13]) && s[13] == ':'
    && AllDigits(s[14..16]) && s[16] == ':'
    && AllDigits(s[17..19])
  }

  /** `datetime.strptime(s, '%Y-%m-%dT%H:%M:%S')`, with every field at its full
      width; `None` where Python raises `ValueError`. */
  function ParseStrict(s: string): (r: Option<Timestamp>)
    ensures r.Some? ==> Valid(r.value) && HasStrictShape(s)
  {
    if HasStrictShape(s) then
      var t := Timestamp(Value(s[0..4]), Value(s[5..7]), Value(s[8..10]),
                         Value(s[11..13]), Value(s[14..16]), Value(s[17..19]));
      if Valid(t) then Some(t) else None
    else None
  }

  /** `t.strftime('%Y-%m-%dT%H:%M:%S')`. */
  function Format(t: Timestamp): (s: string)
    requires Valid(t)
    ensures HasStrictShape(s) && s[10] == 'T'
  {
    Padded(t.year, 4) + "-" + Padded(t.month, 2) + "-" + Padded(t.day, 2) + "T"
    + Padded(t.hour, 2) + ":" + Padded(t.minute, 2) + ":" + Padded(t.second, 2)
  }

  /** Every valid timestamp parses back from its text form. */
  lemma ParseOfFormat(t: Timestamp)
    requires Valid(t)
    ensures ParseStrict(Format(t)) == Some(t)
  {
    var s := Format(t);
    assert s[0..4] == Padded(t.year, 4);
    assert s[5..7] == Padded(t.month, 2);
    assert s[8..10] == Padded(t.day, 2);
    assert s[11..13] == Padded(t.hour, 2);
    assert s[14..16] == Padded(t.minute, 2);
    assert s[17..19] == Padded(t.second, 2);
    ValueOfPadded(t.year, 4);
    ValueOfPadded(t.month, 2);
    ValueOfPadded(t.day, 2);
    ValueOfPadded(t.hour, 2);
    ValueOfPadded(t.minute, 2);
    ValueOfPadded(t.second, 2);
  }

  /** A string that parses is the text form of what it parses to, up to the case
      of the separator letter. */
  lemma FormatOfParse(s: string)
    requires ParseStrict(s).Some?
    ensures Format(ParseStrict(s).value) == s[..10] + "T" + s[11..]
  {
    var t := ParseStrict(s).value;
    PaddedOfValue(s[0..4]);
    PaddedOfValue(s[5..7]);
    PaddedOfValue(s[8..10]);
    PaddedOfValue(s[11..13]);
    PaddedOfValue(s[14..16]);
    PaddedOfValue(s[17..19]);
    var f := Format(t);
    assert f == s[0..4] + "-" + s[5..7] + "-" + s[8..10] + "T" + s[11..13] + ":" + s[14..16] + ":" + s[17..19];
    forall i | 0 <= i < 19
      ensures f[i] == (s[..10] + "T" + s[11..])[i]
    {
      if i < 4 { assert f[i] == s[0..4][i]; }
      else if 5 <= i < 7 { assert f[i] == s[5..7][i - 5]; }
      else if 8 <= i < 10 { assert f[i] == s[8..10][i - 8]; }
      else if 11 <= i < 13 { assert f[i] == s[11..13][i - 11]; }
      else if 14 <= i < 16 { assert f[i] == s[14..16][i - 14]; }
      else if 17 <= i < 19 { assert f[i] == s[17..19][i - 17]; }
    }
  }
}
