/** Worked inputs for the normaliser, with the outcome each one must have. */
module PricingExamples {
  import opened Wrappers
  import opened Decimal
  import opened JsonData
  import opened Timestamps
  import opened TimestampCleanup
  import opened RecordSort
  import opened Messages
  import opened PricingNormaliser

  function Detail(stamp: string, price: Json): Json {
    Obj([(StampKey, Str(stamp)), (PriceKey, price)])
  }

  /** A response with one entry of `data` holding the given details. */
  function Response(details: seq<Json>): Json {
    Obj([(DataKey, Arr([Obj([(DetailsKey, Arr(details))])]))])
  }

  const Midnight := Timestamp(2024, 1, 1, 0, 0, 0)
  const OneAm := Timestamp(2024, 1, 1, 1, 0, 0)

  lemma PaddedYear()
    ensures Padded(2024, 4) == "2024"
  {
    assert Padded(2, 1) == "2";
    assert Padded(20, 2) == "20";
    assert Padded(202, 3) == "202";
  }

  lemma PaddedFields()
    ensures Padded(0, 2) == "00" && Padded(1, 2) == "01"
  {
    assert Padded(0, 1) == "0";
  }

  lemma FormatOfMidnight()
    ensures Format(Midnight) == "2024-01-01T00:00:00"
  {
    PaddedYear();
    PaddedFields();
  }

  lemma FormatOfOneAm()
    ensures Format(OneAm) == "2024-01-01T01:00:00"
  {
    PaddedYear();
    PaddedFields();
  }

  lemma FractionAndOffsetShapes()
    ensures IsFraction(".123") && IsOffset("-0800")
  {
  }

  lemma MidnightText()
    ensures Format(Midnight) + "" + "-0800" == "2024-01-01T00:00:00-0800"
    ensures Format(Midnight) + ".123" + "-0800" == "2024-01-01T00:00:00.123-0800"
  {
    FormatOfMidnight();
  }

  lemma OneAmText()
    ensures Format(OneAm) + "" + "-0800" == "2024-01-01T01:00:00-0800"
    ensures Format(OneAm) + "" + "" == "2024-01-01T01:00:00"
  {
    FormatOfOneAm();
  }

  /** The offset is dropped, not applied. */
  lemma OffsetDropped()
    ensures CleanParse("2024-01-01T00:00:00-0800") == Some(Midnight)
    ensures CleanParse("2024-01-01T01:00:00-0800") == Some(OneAm)
  {
    FractionAndOffsetShapes();
    MidnightText();
    OneAmText();
    CleanParseOfDecorated(Midnight, "", "-0800");
    CleanParseOfDecorated(OneAm, "", "-0800");
  }

  /** Offset and milliseconds are both removed before the parse. */
  lemma MillisecondsAndOffset()
    ensures CleanParse("2024-01-01T00:00:00.123-0800") == Some(Midnight)
  {
    FractionAndOffsetShapes();
    MidnightText();
    CleanParseOfDecorated(Midnight, ".123", "-0800");
  }

  /** The walk over a one-entry response is the candidates of its details. */
  lemma CandidatesOfResponse(details: seq<Json>)
    ensures ResponseCandidates(Response(details)) == Success(CandidatesIn(details))
  {
    var entry := Obj([(DetailsKey, Arr(details))]);
    var resp := Response(details);
    assert Get(resp, DataKey, Arr([])) == Arr([entry]);
    assert Iterate(Arr([entry])) == Some([entry]);
    assert Get(entry, DetailsKey, Arr([])) == Arr(details);
    assert DetailsOf(entry) == Success(details) by {
      if |details| == 0 {
        assert !Truthy(Arr(details));
      }
    }
    assert [entry][1..] == [];
    assert Candidates([entry]) == Success(CandidatesIn(details) + []);
    assert CandidatesIn(details) + [] == CandidatesIn(details);
  }

  lemma PresentDetail(stamp: string, price: Json)
    requires |stamp| > 0 && price != Null
    ensures Present(Detail(stamp, price))
    ensures CandidateOf(Detail(stamp, price)) == Candidate(Str(stamp), price)
  {
    var members := [(StampKey, Str(stamp)), (PriceKey, price)];
    assert StampKey != PriceKey by {
      assert StampKey[0] != PriceKey[0];
    }
    assert members[..1] == [(StampKey, Str(stamp))];
    assert Lookup(members, PriceKey) == Some(price);
    assert Lookup(members, StampKey) == Some(Str(stamp));
  }

  lemma TwoCandidates(a: Json, b: Json)
    requires Present(a) && Present(b)
    ensures CandidatesIn([a, b]) == [CandidateOf(a), CandidateOf(b)]
  {
    assert [a, b][1..] == [b];
    assert [b][1..] == [];
  }

  lemma KeptOfTwo(a: Candidate, b: Candidate, toPrice: PriceConversion)
    requires Convert(a, toPrice).Some? && Convert(b, toPrice).Some?
    ensures Kept([a, b], toPrice) == [Convert(a, toPrice).value, Convert(b, toPrice).value]
    ensures Skipped([a, b], toPrice) == 0
  {
    assert [a, b][1..] == [b];
    assert [b][1..] == [];
  }

  lemma SortedPair(x: Record, y: Record)
    requires Before(x.at, y.at)
    ensures SortByTime([x, y]) == [x, y]
  {
    assert [x, y][1..] == [y];
    assert [y][1..] == [];
  }

  /** Two hourly details with offsets, one price given as a string: both are
      kept, in time order, with the offsets dropped. */
  lemma TwoHourlyPrices(toPrice: PriceConversion)
    requires toPrice(Str("12.5")) == Some(12.5) && toPrice(Num(13.0)) == Some(13.0)
    ensures Normalise(Response([Detail("2024-01-01T00:00:00-0800", Str("12.5")),
                                Detail("2024-01-01T01:00:00-0800", Num(13.0))]), toPrice)
            == Success([Record(Midnight, 12.5), Record(OneAm, 13.0)])
  {
    var d1 := Detail("2024-01-01T00:00:00-0800", Str("12.5"));
    var d2 := Detail("2024-01-01T01:00:00-0800", Num(13.0));
    PresentDetail("2024-01-01T00:00:00-0800", Str("12.5"));
    PresentDetail("2024-01-01T01:00:00-0800", Num(13.0));
    TwoCandidates(d1, d2);
    CandidatesOfResponse([d1, d2]);
    var c1 := Candidate(Str("2024-01-01T00:00:00-0800"), Str("12.5"));
    var c2 := Candidate(Str("2024-01-01T01:00:00-0800"), Num(13.0));
    OffsetDropped();
    assert Convert(c1, toPrice) == Some(Record(Midnight, 12.5));
    assert Convert(c2, toPrice) == Some(Record(OneAm, 13.0));
    KeptOfTwo(c1, c2, toPrice);
    SortedPair(Record(Midnight, 12.5), Record(OneAm, 13.0));
  }

  lemma Present2(a: Json, b: Json)
    requires Present(b)
    ensures !Present(a) ==> CandidatesIn([a, b]) == [CandidateOf(b)]
  {
    assert [a, b][1..] == [b];
    assert [b][1..] == [];
  }

  /** A detail without a price is dropped silently; the valid one is kept. */
  lemma MissingPriceDropped(toPrice: PriceConversion)
    requires toPrice(Num(13.0)) == Some(13.0)
    ensures Normalise(Response([Obj([(StampKey, Str("2024-01-01T00:00:00"))]),
                                Detail("2024-01-01T01:00:00", Num(13.0))]), toPrice)
            == Success([Record(OneAm, 13.0)])
  {
    var d1 := Obj([(StampKey, Str("2024-01-01T00:00:00"))]);
    var d2 := Detail("2024-01-01T01:00:00", Num(13.0));
    assert Get(d1, PriceKey, Null) == Null by {
      assert StampKey != PriceKey by {
        assert StampKey[0] != PriceKey[0];
      }
      assert [(StampKey, Str("2024-01-01T00:00:00"))][..0] == [];
    }
    PresentDetail("2024-01-01T01:00:00", Num(13.0));
    Present2(d1, d2);
    CandidatesOfResponse([d1, d2]);
    var c2 := Candidate(Str("2024-01-01T01:00:00"), Num(13.0));
    FractionAndOffsetShapes();
    OneAmText();
    CleanParseOfDecorated(OneAm, "", "");
    assert Convert(c2, toPrice) == Some(Record(OneAm, 13.0));
    assert [c2][1..] == [];
    assert Kept([c2], toPrice) == [Record(OneAm, 13.0)];
  }

  lemma NotATimestamp()
    ensures CleanParse("yesterday") == None
  {
    var s := "yesterday";
    assert !EndsWithOffset(s);
    assert NoFraction(s);
    StripFractionsOfClean(s);
    CleanParseIsOneParse(s);
  }

  lemma ThreeCandidates(a: Json, b: Json, c: Json)
    requires Present(a) && Present(b) && Present(c)
    ensures CandidatesIn([a, b, c]) == [CandidateOf(a), CandidateOf(b), CandidateOf(c)]
  {
    assert [c][1..] == [];
    assert CandidatesIn([c]) == [CandidateOf(c)];
    assert [b, c][1..] == [c];
    assert CandidatesIn([b, c]) == [CandidateOf(b)] + [CandidateOf(c)];
    assert [a, b, c][1..] == [b, c];
  }

  /** A timestamp that is not a date, a timestamp that is not a string, and a
      price that the conversion refuses. */
  const Unconvertible := [Detail("yesterday", Num(1.0)),
                          Obj([(StampKey, Num(7.0)), (PriceKey, Num(2.0))]),
                          Detail("2024-01-01T01:00:00", Str("n/a"))]

  lemma UnconvertibleCandidates()
    ensures CandidatesIn(Unconvertible)
      == [Candidate(Str("yesterday"), Num(1.0)), Candidate(Num(7.0), Num(2.0)),
          Candidate(Str("2024-01-01T01:00:00"), Str("n/a"))]
  {
    var d2 := Unconvertible[1];
    PresentDetail("yesterday", Num(1.0));
    PresentDetail("2024-01-01T01:00:00", Str("n/a"));
    assert Present(d2) && CandidateOf(d2) == Candidate(Num(7.0), Num(2.0)) by {
      var members := [(StampKey, Num(7.0)), (PriceKey, Num(2.0))];
      assert StampKey != PriceKey by {
        assert StampKey[0] != PriceKey[0];
      }
      assert members[..1] == [(StampKey, Num(7.0))];
      assert Lookup(members, PriceKey) == Some(Num(2.0));
      assert Lookup(members, StampKey) == Some(Num(7.0));
    }
    ThreeCandidates(Unconvertible[0], d2, Unconvertible[2]);
    assert Unconvertible == [Unconvertible[0], d2, Unconvertible[2]];
  }

  lemma UnconvertibleSkipped(toPrice: PriceConversion)
    requires toPrice(Str("n/a")) == None
    ensures Kept(CandidatesIn(Unconvertible), toPrice) == []
    ensures Skipped(CandidatesIn(Unconvertible), toPrice) == 3
  {
    UnconvertibleCandidates();
    var cs := CandidatesIn(Unconvertible);
    NotATimestamp();
    assert Convert(cs[0], toPrice).None?;
    assert Convert(cs[1], toPrice).None?;
    assert Convert(cs[2], toPrice).None?;
    NothingKept(cs, toPrice);
    CountConservation(cs, toPrice);
  }

  /** Three details that each fail conversion: the call fails, and its message
      reports the three skipped records. */
  lemma NothingConverts(toPrice: PriceConversion)
    requires toPrice(Str("n/a")) == None
    ensures Normalise(Response(Unconvertible), toPrice) == Failure(NoValidRecords(3))
    ensures ReportedSkips(NoRecordsMessage(3)) == Some(3)
  {
    CandidatesOfResponse(Unconvertible);
    UnconvertibleSkipped(toPrice);
    ReportedSkipsOfMessage(3);
  }
}
