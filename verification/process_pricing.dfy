/** `process_pricing_data` as the source writes it: nested loops over the
    response that append records and count skipped ones, then the emptiness
    check and the sort. */
module ProcessPricing {
  import opened Wrappers
  import opened JsonData
  import opened Timestamps
  import opened TimestampCleanup
  import opened RecordSort
  import opened PricingNormaliser

  /** The loop body for one detail record, as a step on the running table and
      skip count. */
  method VisitDetail(detail: Json, toPrice: PriceConversion, pricing: seq<Record>, skipped: nat)
    returns (pricing': seq<Record>, skipped': nat)
    ensures pricing' == pricing + Kept(CandidatesIn([detail]), toPrice)
    ensures skipped' == skipped + Skipped(CandidatesIn([detail]), toPrice)
  {
    pricing', skipped' := pricing, skipped;
    assert [detail][1..] == [];
    if !detail.Obj? {
      return;
    }
    var stamp := Get(detail, StampKey, Null);
    var price := Get(detail, PriceKey, Null);
    if Truthy(stamp) && price != Null {
      var parsed: Option<Timestamp> := None;
      if stamp.Str? {
        var clean := StripOffset(stamp.s);
        parsed := ParseStrict(clean);
        if parsed.None? {
          parsed := ParseStrict(StripFractions(clean));
        }
      }
      if parsed.None? {
        skipped' := skipped + 1;
        return;
      }
      var value := toPrice(price);
      if value.None? {
        skipped' := skipped + 1;
        return;
      }
      pricing' := pricing + [Record(parsed.value, value.value)];
    }
  }

  lemma AppendAssociates<T>(a: seq<T>, b: seq<T>, c: seq<T>)
    ensures a + b + c == a + (b + c)
  {
  }

  /** Advancing the inner loop by one item extends the kept records and the
      skip count by that item's share. */
  lemma DetailStep(items: seq<Json>, j: nat, toPrice: PriceConversion)
    requires j < |items|
    ensures Kept(CandidatesIn(items[..j + 1]), toPrice)
      == Kept(CandidatesIn(items[..j]), toPrice) + Kept(CandidatesIn([items[j]]), toPrice)
    ensures Skipped(CandidatesIn(items[..j + 1]), toPrice)
      == Skipped(CandidatesIn(items[..j]), toPrice) + Skipped(CandidatesIn([items[j]]), toPrice)
  {
    assert items[..j + 1] == items[..j] + [items[j]];
    CandidatesInAppend(items[..j], [items[j]]);
    KeptAppend(CandidatesIn(items[..j]), CandidatesIn([items[j]]), toPrice);
  }

  /** Advancing the outer loop by one entry whose details can be iterated
      extends the kept records and the skip count by that entry's share. */
  lemma EntryStep(entries: seq<Json>, i: nat, toPrice: PriceConversion)
    requires i < |entries| && Candidates(entries[..i]).Success? && DetailsOf(entries[i]).Success?
    ensures Candidates(entries[..i + 1]).Success?
    ensures Kept(Candidates(entries[..i + 1]).value, toPrice)
      == Kept(Candidates(entries[..i]).value, toPrice) + Kept(CandidatesIn(DetailsOf(entries[i]).value), toPrice)
    ensures Skipped(Candidates(entries[..i + 1]).value, toPrice)
      == Skipped(Candidates(entries[..i]).value, toPrice) + Skipped(CandidatesIn(DetailsOf(entries[i]).value), toPrice)
  {
    var entry := entries[i];
    var added := CandidatesIn(DetailsOf(entry).value);
    assert entries[..i + 1] == entries[..i] + [entry];
    CandidatesAppend(entries[..i], [entry]);
    assert Candidates([entry]) == Success(added + []) by {
      assert [entry][1..] == [];
    }
    assert added + [] == added;
    KeptAppend(Candidates(entries[..i]).value, added, toPrice);
  }

  /** The inner loop over the items of one `priceDetails` list. */
  method VisitDetails(items: seq<Json>, toPrice: PriceConversion, pricing: seq<Record>, skipped: nat)
    returns (pricing': seq<Record>, skipped': nat)
    ensures pricing' == pricing + Kept(CandidatesIn(items), toPrice)
    ensures skipped' == skipped + Skipped(CandidatesIn(items), toPrice)
  {
    pricing', skipped' := pricing, skipped;
    var j := 0;
    while j < |items|
      invariant 0 <= j <= |items|
      invariant pricing' == pricing + Kept(CandidatesIn(items[..j]), toPrice)
      invariant skipped' == skipped + Skipped(CandidatesIn(items[..j]), toPrice)
    {
      var detail := items[j];
      ghost var done := Kept(CandidatesIn(items[..j]), toPrice);
      ghost var added := Kept(CandidatesIn([detail]), toPrice);
      pricing', skipped' := VisitDetail(detail, toPrice, pricing', skipped');
      DetailStep(items, j, toPrice);
      AppendAssociates(pricing, done, added);
      j := j + 1;
    }
    assert items[..j] == items;
  }

  /** The body of the outer loop for one entry of `data`. It fails when the
      entry's `priceDetails` is a truthy value that cannot be iterated. */
  method VisitEntry(entry: Json, toPrice: PriceConversion, pricing: seq<Record>, skipped: nat)
    returns (failed: bool, pricing': seq<Record>, skipped': nat)
    ensures failed <==> DetailsOf(entry).Failure?
    ensures !failed ==> pricing' == pricing + Kept(CandidatesIn(DetailsOf(entry).value), toPrice)
    ensures !failed ==> skipped' == skipped + Skipped(CandidatesIn(DetailsOf(entry).value), toPrice)
  {
    failed, pricing', skipped' := false, pricing, skipped;
    if !entry.Obj? {
      return;
    }
    var details := Get(entry, DetailsKey, Arr([]));
    if !Truthy(details) {
      return;
    }
    var iterated := Iterate(details);
    if iterated.None? {
      return true, pricing, skipped;
    }
    assert DetailsOf(entry) == Success(iterated.value);
    pricing', skipped' := VisitDetails(iterated.value, toPrice, pricing, skipped);
  }

  /** The whole normaliser, loop for loop. */
  method ProcessPricingData(resp: Json, toPrice: PriceConversion) returns (r: Result<seq<Record>, Error>)
    ensures r == Normalise(resp, toPrice)
  {
    if !resp.Obj? {
      return Failure(NotAMapping);
    }
    var dataList := Get(resp, DataKey, Arr([]));
    if !Truthy(dataList) {
      return Failure(NoData);
    }
    var iterated := Iterate(dataList);
    if iterated.None? {
      return Failure(NotIterable);
    }
    var entries := iterated.value;
    var pricing: seq<Record> := [];
    var skipped: nat := 0;
    var i := 0;
    while i < |entries|
      invariant 0 <= i <= |entries|
      invariant Candidates(entries[..i]).Success?
      invariant pricing == Kept(Candidates(entries[..i]).value, toPrice)
      invariant skipped == Skipped(Candidates(entries[..i]).value, toPrice)
    {
      var entry := entries[i];
      var failed;
      failed, pricing, skipped := VisitEntry(entry, toPrice, pricing, skipped);
      if failed {
        assert DetailsOf(entries[i]).Failure?;
        return Failure(NotIterable);
      }
      EntryStep(entries, i, toPrice);
      i := i + 1;
    }
    assert entries[..i] == entries;
    if |pricing| == 0 {
      return Failure(NoValidRecords(skipped));
    }
    return Success(SortByTime(pricing));
  }
}
