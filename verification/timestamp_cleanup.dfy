/** Repair of the raw interval timestamps before they are parsed: drop one
    trailing UTC offset such as `-0800`, and, when the plain parse fails, drop
    fractional seconds such as `.123` and parse again. */
module TimestampCleanup {
  import opened Wrappers
  import opened Decimal
  import opened Timestamps

  /** A numeric UTC offset: a sign followed by exactly four digits. */
  predicate IsOffset(o: string) {
    |o| == 5 && (o[0] == '+' || o[0] == '-') && AllDigits(o[1..])
  }

  /** The string matches `[+-]\d{4}$`. */
  predicate EndsWithOffset(s: string) {
    |s| >= 5 && IsOffset(s[|s| - 5..])
  }

  /** `re.sub(r'[+-]\d{4}$', '', s)`: the pattern is anchored at the end, so at
      most one offset is removed. */
  function StripOffset(s: string): (r: string)
    ensures EndsWithOffset(s) ==> r + s[|s| - 5..] == s
    ensures !EndsWithOffset(s) ==> r == s
  {
    if EndsWithOffset(s) then s[..|s| - 5] else s
  }

  /** Appending an offset and stripping it gives the string back; so of two
      appended offsets only the last one goes. */
  lemma StripOffsetOfAppended(base: string, o: string)
    requires IsOffset(o)
    ensures StripOffset(base + o) == base
    ensures forall o' :: IsOffset(o') ==> StripOffset(base + o' + o) == base + o'
  {
    assert (base + o)[|base + o| - 5..] == o;
    forall o' | IsOffset(o')
      ensures StripOffset(base + o' + o) == base + o'
    {
      assert (base + o' + o)[|base + o' + o| - 5..] == o;
    }
  }

  /** A `.` followed by a digit: where `\.\d+` matches. */
  predicate StartsFraction(s: string) {
    |s| >= 2 && s[0] == '.' && IsDigit(s[1])
  }

  /** No `\.\d+` match anywhere in the string. */
  predicate NoFraction(s: string) {
    forall i :: 0 <= i < |s| - 1 && s[i] == '.' ==> !IsDigit(s[i + 1])
  }

  /** The length of the run of digits that starts the string. */
  function DigitRun(s: string): (n: nat)
    ensures n <= |s| && AllDigits(s[..n])
    ensures n == |s| || !IsDigit(s[n])
  {
    if |s| == 0 || !IsDigit(s[0]) then 0 else 1 + DigitRun(s[1..])
  }

  /** `re.sub(r'\.\d+', '', s)`: every dot followed by digits is removed together
      with the whole run of digits, scanning left to right. */
  function StripFractions(s: string): string
    decreases |s|
  {
    if |s| == 0 then []
    else if StartsFraction(s) then StripFractions(s[1 + DigitRun(s[1..])..])
    else [s[0]] + StripFractions(s[1..])
  }

  /** No fraction survives the stripping, and a string that does not start
      with a digit is not made to start with one. */
  lemma {:induction false} StripFractionsLeavesNone(s: string)
    ensures NoFraction(StripFractions(s))
    ensures |s| > 0 && !IsDigit(s[0]) ==> |StripFractions(s)| == 0 || !IsDigit(StripFractions(s)[0])
    decreases |s|
  {
    if |s| > 0 {
      if StartsFraction(s) {
        StripFractionsLeavesNone(s[1 + DigitRun(s[1..])..]);
      } else {
        var rest := StripFractions(s[1..]);
        StripFractionsLeavesNone(s[1..]);
        var r := [s[0]] + rest;
        assert r == StripFractions(s);
        forall i | 0 <= i < |r| - 1 && r[i] == '.'
          ensures !IsDigit(r[i + 1])
        {
          if i > 0 {
            assert r[i] == rest[i - 1] && r[i + 1] == rest[i];
          }
        }
      }
    }
  }

  /** A string without fractions is left alone. */
  lemma {:induction false} StripFractionsOfClean(s: string)
    requires NoFraction(s)
    ensures StripFractions(s) == s
    decreases |s|
  {
    if |s| > 0 {
      assert !StartsFraction(s);
      StripFractionsOfClean(s[1..]);
    }
  }

  /** Stripping fractions twice is stripping them once. */
  lemma StripFractionsIdempotent(s: string)
    ensures StripFractions(StripFractions(s)) == StripFractions(s)
  {
    StripFractionsLeavesNone(s);
    StripFractionsOfClean(StripFractions(s));
  }

  /** A digit run ends where the first non-digit begins, even if more text follows. */
  lemma {:induction false} DigitRunAppend(x: string, y: string)
    requires |y| == 0 || !IsDigit(y[0])
    ensures DigitRun(x + y) == DigitRun(x)
  {
    if |x| > 0 && IsDigit(x[0]) {
      assert (x + y)[1..] == x[1..] + y;
      DigitRunAppend(x[1..], y);
    }
  }

  /** Fractions are removed piecewise when the second piece cannot extend a
      digit run of the first. */
  lemma {:induction false} StripFractionsAppend(x: string, y: string)
    requires |y| == 0 || !IsDigit(y[0])
    ensures StripFractions(x + y) == StripFractions(x) + StripFractions(y)
    decreases |x|, 1
  {
    if |x| == 0 {
      assert x + y == y;
    } else if StartsFraction(x) {
      StripFractionsAppendAtFraction(x, y);
    } else {
      StripFractionsAppendAtOther(x, y);
    }
  }

  lemma {:induction false} StripFractionsAppendAtFraction(x: string, y: string)
    requires |y| == 0 || !IsDigit(y[0])
    requires StartsFraction(x)
    ensures StripFractions(x + y) == StripFractions(x) + StripFractions(y)
    decreases |x|, 0
  {
    var k := 1 + DigitRun(x[1..]);
    assert StartsFraction(x + y);
    assert DigitRun((x + y)[1..]) == k - 1 by {
      assert (x + y)[1..] == x[1..] + y;
      DigitRunAppend(x[1..], y);
    }
    assert (x + y)[k..] == x[k..] + y;
    StripFractionsAppend(x[k..], y);
  }

  lemma {:induction false} StripFractionsAppendAtOther(x: string, y: string)
    requires |y| == 0 || !IsDigit(y[0])
    requires |x| > 0 && !StartsFraction(x)
    ensures StripFractions(x + y) == StripFractions(x) + StripFractions(y)
    decreases |x|, 0
  {
    assert !StartsFraction(x + y) by {
      if |x| == 1 {
        assert |y| == 0 || (x + y)[1] == y[0];
      } else {
        assert (x + y)[1] == x[1];
      }
    }
    assert (x + y)[1..] == x[1..] + y;
    StripFractionsAppend(x[1..], y);
    assert [x[0]] + StripFractions(x[1..]) + StripFractions(y)
      == [x[0]] + (StripFractions(x[1..]) + StripFractions(y));
  }

  /** A dot with digits after it: what `\.\d+` removes as a whole. */
  predicate IsFraction(f: string) {
    |f| >= 2 && f[0] == '.' && AllDigits(f[1..])
  }

  lemma StripFractionsOfFraction(f: string)
    requires IsFraction(f)
    ensures StripFractions(f) == ""
  {
    assert StartsFraction(f);
    assert f[1..][..|f| - 1] == f[1..];
    assert DigitRun(f[1..]) == |f| - 1;
  }

  /** The text form of a timestamp holds no dot and does not end in an offset. */
  lemma StrictShapeIsClean(s: string)
    requires HasStrictShape(s)
    ensures NoFraction(s) && !EndsWithOffset(s)
  {
    forall i | 0 <= i < |s|
      ensures s[i] != '.'
    {
      if i < 4 { assert s[0..4][i] == s[i]; }
      else if 5 <= i < 7 { assert s[5..7][i - 5] == s[i]; }
      else if 8 <= i < 10 { assert s[8..10][i - 8] == s[i]; }
      else if 11 <= i < 13 { assert s[11..13][i - 11] == s[i]; }
      else if 14 <= i < 16 { assert s[14..16][i - 14] == s[i]; }
      else if 17 <= i < 19 { assert s[17..19][i - 17] == s[i]; }
    }
    assert s[14..16][0] == s[14];
    assert s[|s| - 5..][0] == s[14];
  }

  /** Offset removal, a strict parse, and, only when that fails, fraction
      removal and a second strict parse. `None` where both parses fail. */
  function CleanParse(raw: string): Option<Timestamp> {
    var clean := StripOffset(raw);
    match ParseStrict(clean)
    case Some(t) => Some(t)
    case None => ParseStrict(StripFractions(clean))
  }

  /** The second attempt would succeed, with the same timestamp, wherever the
      first does: the two attempts together are one parse of the fully
      stripped string. */
  lemma CleanParseIsOneParse(raw: string)
    ensures CleanParse(raw) == ParseStrict(StripFractions(StripOffset(raw)))
  {
    var clean := StripOffset(raw);
    if ParseStrict(clean).Some? {
      StrictShapeIsClean(clean);
      StripFractionsOfClean(clean);
    }
  }

  /** A string that already has the strict form is a fixed point of both strip
      steps and is parsed as it stands. */
  lemma CleanStringIsFixedPoint(s: string)
    requires ParseStrict(s).Some?
    ensures StripOffset(s) == s && StripFractions(s) == s
    ensures CleanParse(s) == ParseStrict(s)
  {
    StrictShapeIsClean(s);
    StripFractionsOfClean(s);
  }

  /** A timestamp written in the strict form, optionally followed by fractional
      seconds and optionally by a UTC offset, is read back as that timestamp;
      the offset is discarded rather than applied. */
  lemma CleanParseOfDecorated(t: Timestamp, fraction: string, offset: string)
    requires Valid(t)
    requires fraction == "" || IsFraction(fraction)
    requires offset == "" || IsOffset(offset)
    ensures CleanParse(Format(t) + fraction + offset) == Some(t)
  {
    var s := Format(t);
    var raw := s + fraction + offset;
    StrictShapeIsClean(s);
    ParseOfFormat(t);
    if offset == "" {
      assert raw == s + fraction;
      if fraction != "" {
        assert raw[|raw| - 5] != '+' && raw[|raw| - 5] != '-' by {
          if |fraction| >= 6 {
            assert raw[|raw| - 5] == fraction[|fraction| - 5] == fraction[1..][|fraction| - 6];
          } else if |fraction| == 5 {
            assert raw[|raw| - 5] == fraction[0];
          } else {
            assert raw[|raw| - 5] == s[14 + |fraction|];
            assert !IsOffset(s[|s| - 5..]);
            assert s[|s| - 5..][|fraction|] == s[14 + |fraction|];
            if |fraction| == 2 {
              assert s[14 + |fraction|] == ':';
            } else {
              assert s[17..19][|fraction| - 3] == s[14 + |fraction|];
            }
          }
        }
      }
    } else {
      StripOffsetOfAppended(s + fraction, offset);
    }
    assert StripOffset(raw) == s + fraction;
    if fraction == "" {
      assert s + fraction == s;
    } else {
      StripFractionsAppend(s, fraction);
      StripFractionsOfFraction(fraction);
      StripFractionsOfClean(s);
      assert StripFractions(s + fraction) == s;
    }
    CleanParseIsOneParse(raw);
  }
}
