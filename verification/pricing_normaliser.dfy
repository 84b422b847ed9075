/** The normaliser: from a decoded pricing response to a chronologically sorted,
    non-empty sequence of (timestamp, price) records, or one of the errors the
    source raises. */
module PricingNormaliser {
  import opened Wrappers
  import opened JsonData
  import opened Timestamps
  import opened TimestampCleanup
  import opened RecordSort

  /** Why a call fails. */
  datatype Error =
    | NotAMapping                   // the response is not a mapping
    | NoData                        // `data` is missing or falsy
    | NotIterable                   // `data` or a `priceDetails` is a truthy number or `true`
    | NoValidRecords(skipped: nat)  // nothing survived; how many were skipped as unparseable

  /** `float(price)`, kept abstract: the price of a JSON value, or `None` where
      Python raises `ValueError` or `TypeError`. */
  type PriceConversion = Json -> Option<real>

  /** A detail record that passed the presence check: its raw timestamp and price. */
  datatype Candidate = Candidate(stamp: Json, price: Json)

  const DataKey := "data"
  const DetailsKey := "priceDetails"
  const StampKey := "startIntervalTimeStamp"
  const PriceKey := "intervalPrice"

  /** The presence check on one item of a `priceDetails` list: it must be a
      mapping with a truthy timestamp and a price that is neither missing nor null. */
  predicate Present(detail: Json) {
    detail.Obj? && Truthy(Get(detail, StampKey, Null)) && Get(detail, PriceKey, Null) != Null
  }

  function CandidateOf(detail: Json): Candidate
    requires Present(detail)
  {
    Candidate(Get(detail, StampKey, Null), Get(detail, PriceKey, Null))
  }

  /** The candidates of one `priceDetails` list, in order. */
  function CandidatesIn(details: seq<Json>): (r: seq<Candidate>)
    ensures |r| <= |details|
    ensures forall c :: c in r ==> Truthy(c.stamp) && c.price != Null
  {
    if |details| == 0 then []
    else if Present(details[0]) then [CandidateOf(details[0])] + CandidatesIn(details[1..])
    else CandidatesIn(details[1..])
  }

  /** The items the inner loop visits for one entry of `data`: none for a
      non-mapping entry or a missing or falsy `priceDetails`. */
  function DetailsOf(entry: Json): Result<seq<Json>, Error> {
    if !entry.Obj? then Success([])
    else
      var details := Get(entry, DetailsKey, Arr([]));
      if !Truthy(details) then Success([])
      else match Iterate(details)
        case None => Failure(NotIterable)
        case Some(items) => Success(items)
  }

  /** All candidates of the nested walk, in walk order; the walk fails when some
      entry's `priceDetails` cannot be iterated. */
  function Candidates(entries: seq<Json>): (r: Result<seq<Candidate>, Error>)
    ensures r.Failure? ==> r.error == NotIterable
    ensures r.Failure? <==> exists i :: 0 <= i < |entries| && DetailsOf(entries[i]).Failure?
  {
    if |entries| == 0 then Success([])
    else
      match DetailsOf(entries[0])
      case Failure(e) => Failure(e)
      case Success(details) =>
        match Candidates(entries[1..])
        case Failure(e) =>
          assert forall i :: 1 <= i < |entries| ==> entries[1..][i - 1] == entries[i];
          Failure(e)
        case Success(rest) =>
          assert forall i :: 1 <= i < |entries| ==> entries[1..][i - 1] == entries[i];
          Success(CandidatesIn(details) + rest)
  }

  /** The shape checks on the response, then the nested walk. */
  function ResponseCandidates(resp: Json): Result<seq<Candidate>, Error> {
    if !resp.Obj? then Failure(NotAMapping)
    else
      var dataList := Get(resp, DataKey, Arr([]));
      if !Truthy(dataList) then Failure(NoData)
      else match Iterate(dataList)
        case None => Failure(NotIterable)
        case Some(entries) => Candidates(entries)
  }

  /** One candidate through the inner `try`: offset and fraction cleanup, the
      strict parse, then the price conversion. `None` means the candidate is
      skipped and counted. A timestamp that is not a string is skipped too, as
      `re.sub` raises `TypeError` on it. */
  function Convert(c: Candidate, toPrice: PriceConversion): (r: Option<Record>)
    ensures r.Some? ==> Valid(r.value.at)
    ensures r.Some? ==> c.stamp.Str? && CleanParse(c.stamp.s) == Some(r.value.at) && toPrice(c.price) == Some(r.value.price)
    ensures r.None? ==> !c.stamp.Str? || CleanParse(c.stamp.s).None? || toPrice(c.price).None?
  {
    match c.stamp
    case Str(raw) =>
      (match CleanParse(raw)
       case None => None
       case Some(t) =>
         match toPrice(c.price)
         case None => None
         case Some(p) => Some(Record(t, p)))
    case _ => None
  }

  /** The records appended for a sequence of candidates, in order. */
  function Kept(cs: seq<Candidate>, toPrice: PriceConversion): (r: seq<Record>)
    ensures |r| <= |cs|
    ensures forall rec :: rec in r ==> Valid(rec.at)
  {
    if |cs| == 0 then []
    else match Convert(cs[0], toPrice)
      case Some(rec) => [rec] + Kept(cs[1..], toPrice)
      case None => Kept(cs[1..], toPrice)
  }

  /** How many of the candidates are skipped as unparseable. */
  function Skipped(cs: seq<Candidate>, toPrice: PriceConversion): (n: nat)
    ensures n <= |cs|
  {
    if |cs| == 0 then 0
    else (if Convert(cs[0], toPrice).None? then 1 else 0) + Skipped(cs[1..], toPrice)
  }

  /** Count conservation: every candidate is either kept or counted as skipped. */
  lemma {:induction false} CountConservation(cs: seq<Candidate>, toPrice: PriceConversion)
    ensures |Kept(cs, toPrice)| + Skipped(cs, toPrice) == |cs|
  {
    if |cs| > 0 {
      CountConservation(cs[1..], toPrice);
    }
  }

  /** The kept records are exactly the successful conversions of the candidates. */
  lemma {:induction false} KeptAreConversions(cs: seq<Candidate>, toPrice: PriceConversion, rec: Record)
    ensures rec in Kept(cs, toPrice) <==> exists c :: c in cs && Convert(c, toPrice) == Some(rec)
  {
    if |cs| > 0 {
      KeptAreConversions(cs[1..], toPrice, rec);
      assert forall c :: c in cs <==> c == cs[0] || c in cs[1..];
    }
  }

  /** Nothing is kept exactly when no candidate converts. */
  lemma NothingKept(cs: seq<Candidate>, toPrice: PriceConversion)
    ensures Kept(cs, toPrice) == [] <==> forall c :: c in cs ==> Convert(c, toPrice).None?
  {
    if Kept(cs, toPrice) != [] {
      KeptAreConversions(cs, toPrice, Kept(cs, toPrice)[0]);
    } else {
      forall c | c in cs && Convert(c, toPrice).Some?
        ensures false
      {
        KeptAreConversions(cs, toPrice, Convert(c, toPrice).value);
      }
    }
  }

  /** The normaliser. */
  function Normalise(resp: Json, toPrice: PriceConversion): (r: Result<seq<Record>, Error>)
    ensures r.Success? ==> ResponseCandidates(resp).Success?
    ensures r.Success? ==>
      var cs := ResponseCandidates(resp).value;
      && |r.value| > 0
      && Sorted(r.value)
      && multiset(r.value) == multiset(Kept(cs, toPrice))
      && |r.value| + Skipped(cs, toPrice) == |cs|
    ensures r.Success? ==> forall rec :: rec in r.value ==> Valid(rec.at)
    ensures r.Failure? && r.error.NoValidRecords? ==>
      ResponseCandidates(resp).Success? && r.error.skipped == |ResponseCandidates(resp).value|
    ensures ResponseCandidates(resp).Success? <==> r.Success? || r.error.NoValidRecords?
  {
    match ResponseCandidates(resp)
    case Failure(e) => Failure(e)
    case Success(cs) =>
      var kept := Kept(cs, toPrice);
      CountConservation(cs, toPrice);
      if |kept| == 0 then Failure(NoValidRecords(Skipped(cs, toPrice)))
      else
        var sorted := SortByTime(kept);
        assert forall rec :: rec in sorted ==> rec in multiset(kept);
        Success(sorted)
  }

  /** Joins the walks of two consecutive runs of entries. */
  function Join(a: Result<seq<Candidate>, Error>, b: Result<seq<Candidate>, Error>): Result<seq<Candidate>, Error> {
    if a.Failure? then a
    else if b.Failure? then b
    else Success(a.value + b.value)
  }

  lemma {:induction false} CandidatesInAppend(a: seq<Json>, b: seq<Json>)
    ensures CandidatesIn(a + b) == CandidatesIn(a) + CandidatesIn(b)
  {
    if |a| == 0 {
      assert a + b == b;
    } else {
      assert (a + b)[1..] == a[1..] + b;
      CandidatesInAppend(a[1..], b);
    }
  }

  lemma {:induction false} CandidatesAppend(a: seq<Json>, b: seq<Json>)
    ensures Candidates(a + b) == Join(Candidates(a), Candidates(b))
  {
    if |a| == 0 {
      assert a + b == b;
      if Candidates(b).Success? {
        assert [] + Candidates(b).value == Candidates(b).value;
      }
    } else {
      assert (a + b)[0] == a[0];
      assert (a + b)[1..] == a[1..] + b;
      CandidatesAppend(a[1..], b);
      match DetailsOf(a[0])
      case Failure(_) =>
      case Success(details) =>
        if Candidates(a[1..]).Success? && Candidates(b).Success? {
          assert CandidatesIn(details) + Candidates(a[1..]).value + Candidates(b).value
            == CandidatesIn(details) + (Candidates(a[1..]).value + Candidates(b).value);
        }
    }
  }

  lemma {:induction false} KeptAppend(a: seq<Candidate>, b: seq<Candidate>, toPrice: PriceConversion)
    ensures Kept(a + b, toPrice) == Kept(a, toPrice) + Kept(b, toPrice)
    ensures Skipped(a + b, toPrice) == Skipped(a, toPrice) + Skipped(b, toPrice)
  {
    if |a| == 0 {
      assert a + b == b;
    } else {
      assert (a + b)[0] == a[0];
      assert (a + b)[1..] == a[1..] + b;
      KeptAppend(a[1..], b, toPrice);
    }
  }

  /** An entry of `data` that is not a mapping, or whose `priceDetails` is
      missing or falsy, adds no candidate wherever it stands: the records and
      the skip count are those of the walk without it. */
  lemma IgnoredEntry(before: seq<Json>, entry: Json, after: seq<Json>)
    requires !entry.Obj? || !Truthy(Get(entry, DetailsKey, Arr([])))
    ensures Candidates(before + [entry] + after) == Candidates(before + after)
  {
    CandidatesAppend(before + [entry], after);
    CandidatesAppend(before, [entry]);
    CandidatesAppend(before, after);
    assert Candidates([entry]) == Success([]) by {
      assert [entry][1..] == [];
    }
    if Candidates(before).Success? {
      assert Candidates(before).value + [] == Candidates(before).value;
    }
  }

  /** A detail that fails the presence check (not a mapping, a missing or falsy
      timestamp, a missing or null price) adds no candidate, so it is neither
      kept nor counted. */
  lemma AbsentDetailIgnored(before: seq<Json>, detail: Json, after: seq<Json>)
    requires !detail.Obj? || !Truthy(Get(detail, StampKey, Null)) || Get(detail, PriceKey, Null) == Null
    ensures CandidatesIn(before + [detail] + after) == CandidatesIn(before + after)
  {
    CandidatesInAppend(before + [detail], after);
    CandidatesInAppend(before, [detail]);
    CandidatesInAppend(before, after);
    assert CandidatesIn([detail]) == [] by {
      assert [detail][1..] == [];
    }
    assert CandidatesIn(before) + [] == CandidatesIn(before);
  }

  /** A detail that passes the presence check adds exactly its own candidate. */
  lemma PresentDetailKept(before: seq<Json>, detail: Json, after: seq<Json>)
    requires detail.Obj? && Truthy(Get(detail, StampKey, Null)) && Get(detail, PriceKey, Null) != Null
    ensures CandidatesIn(before + [detail] + after)
      == CandidatesIn(before) + [Candidate(Get(detail, StampKey, Null), Get(detail, PriceKey, Null))] + CandidatesIn(after)
  {
    CandidatesInAppend(before + [detail], after);
    CandidatesInAppend(before, [detail]);
    assert CandidatesIn([detail]) == [CandidateOf(detail)] by {
      assert [detail][1..] == [];
      assert [CandidateOf(detail)] + [] == [CandidateOf(detail)];
    }
  }

  /** A response that is not a mapping, or whose `data` is missing or an empty
      list, fails before any detail is looked at: the price conversion plays no
      part in the outcome. */
  lemma FailsBeforeDetails(resp: Json, toPrice: PriceConversion, other: PriceConversion)
    requires !resp.Obj? || Lookup(resp.members, DataKey) in {None, Some(Arr([]))}
    ensures Normalise(resp, toPrice) == Normalise(resp, other)
    ensures Normalise(resp, toPrice) == if resp.Obj? then Failure(NoData) else Failure(NotAMapping)
  {
  }

  /** Once the shape checks and the walk succeed, the call fails exactly when no
      candidate converts, and then it reports every candidate as skipped. */
  lemma FailsExactlyWhenNothingConverts(resp: Json, toPrice: PriceConversion)
    requires ResponseCandidates(resp).Success?
    ensures Normalise(resp, toPrice).Failure? <==>
      forall c :: c in ResponseCandidates(resp).value ==> Convert(c, toPrice).None?
    ensures Normalise(resp, toPrice).Failure? ==>
      Normalise(resp, toPrice) == Failure(NoValidRecords(|ResponseCandidates(resp).value|))
  {
    NothingKept(ResponseCandidates(resp).value, toPrice);
  }

  /** Entries that are all non-mappings (the characters of a string, the keys
      of a mapping) yield no candidate at all. */
  lemma {:induction false} NoMappingNoCandidates(entries: seq<Json>)
    requires forall i :: 0 <= i < |entries| ==> !entries[i].Obj?
    ensures Candidates(entries) == Success([])
  {
    if |entries| > 0 {
      assert forall i :: 0 <= i < |entries| - 1 ==> entries[1..][i] == entries[i + 1];
      NoMappingNoCandidates(entries[1..]);
      assert DetailsOf(entries[0]) == Success([]);
      assert CandidatesIn([]) + [] == [];
    }
  }

  /** A `data` value that is a non-empty string or mapping is walked without
      error but yields nothing: the call fails with no skipped records. A
      truthy number or `true` cannot be iterated at all. */
  lemma DataNotAList(resp: Json, toPrice: PriceConversion)
    requires resp.Obj? && Truthy(Get(resp, DataKey, Arr([])))
    ensures Get(resp, DataKey, Arr([])).Str? || Get(resp, DataKey, Arr([])).Obj? ==>
      Normalise(resp, toPrice) == Failure(NoValidRecords(0))
    ensures Get(resp, DataKey, Arr([])).Num? || Get(resp, DataKey, Arr([])).Bool? ==>
      Normalise(resp, toPrice) == Failure(NotIterable)
  {
    var dataList := Get(resp, DataKey, Arr([]));
    if dataList.Str? || dataList.Obj? {
      NoMappingNoCandidates(Iterate(dataList).value);
    }
  }
}
