/** Price records and their chronological ordering (the `sort_values('datetime')`
    step). Only order and contents are promised: records that share a timestamp
    may come out in any order, as with an unstable sort. */
module RecordSort {
  import opened Timestamps

  /** One row of the output table: the interval start and its price. */
  datatype Record = Record(at: Timestamp, price: real)

  /** Ascending by timestamp. */
  predicate Sorted(s: seq<Record>) {
    forall i, j :: 0 <= i < j < |s| ==> NotAfter(s[i].at, s[j].at)
  }

  /** No record of `s` is earlier than `x`. */
  predicate NoneEarlier(x: Record, s: seq<Record>) {
    forall i :: 0 <= i < |s| ==> NotAfter(x.at, s[i].at)
  }

  /** Places `x` in front of the first record that is not earlier than it. */
  function Insert(x: Record, s: seq<Record>): (r: seq<Record>)
    requires Sorted(s)
    ensures Sorted(r)
    ensures multiset(r) == multiset(s) + multiset{x}
  {
    if |s| == 0 then [x]
    else if NotAfter(x.at, s[0].at) then
      assert NoneEarlier(x, s) by {
        forall i | 0 <= i < |s| ensures NotAfter(x.at, s[i].at) {
          NotAfterTransitive(x.at, s[0].at, s[i].at);
        }
      }
      [x] + s
    else
      var rest := Insert(x, s[1..]);
      assert NoneEarlier(s[0], s[1..]);
      NotAfterTotal(x.at, s[0].at);
      NoneEarlierOfInsert(s[0], x, s[1..], rest);
      SortedCons(s[0], rest);
      assert s == [s[0]] + s[1..];
      [s[0]] + rest
  }

  /** A record no later than `x` and than every record of `s` is no later
      than any record of a sequence holding exactly `x` and the records of `s`. */
  lemma NoneEarlierOfInsert(y: Record, x: Record, s: seq<Record>, r: seq<Record>)
    requires NoneEarlier(y, s) && NotAfter(y.at, x.at)
    requires multiset(r) == multiset(s) + multiset{x}
    ensures NoneEarlier(y, r)
  {
    forall i | 0 <= i < |r|
      ensures NotAfter(y.at, r[i].at)
    {
      assert r[i] in multiset(r);
      if r[i] != x {
        assert r[i] in multiset(s);
      }
    }
  }

  lemma SortedCons(x: Record, s: seq<Record>)
    requires Sorted(s) && NoneEarlier(x, s)
    ensures Sorted([x] + s)
  {
    var r := [x] + s;
    forall i, j | 0 <= i < j < |r|
      ensures NotAfter(r[i].at, r[j].at)
    {
      assert r[j] == s[j - 1];
      if i > 0 {
        assert r[i] == s[i - 1];
      }
    }
  }

  /** The records of `s` in ascending timestamp order. */
  function SortByTime(s: seq<Record>): (r: seq<Record>)
    ensures Sorted(r)
    ensures multiset(r) == multiset(s)
  {
    if |s| == 0 then []
    else
      assert s == [s[0]] + s[1..];
      Insert(s[0], SortByTime(s[1..]))
  }

  /** Dropping one record keeps a sequence sorted. */
  lemma SortedWithout(b: seq<Record>, j: nat)
    requires Sorted(b) && j < |b|
    ensures Sorted(b[..j] + b[j + 1..])
  {
    var rest := b[..j] + b[j + 1..];
    forall p, q | 0 <= p < q < |rest|
      ensures NotAfter(rest[p].at, rest[q].at)
    {
      var p' := if p < j then p else p + 1;
      var q' := if q < j then q else q + 1;
      assert rest[p] == b[p'] && rest[q] == b[q'] && p' < q';
    }
  }

  lemma MultisetWithout(a: seq<Record>, b: seq<Record>, j: nat)
    requires multiset(a) == multiset(b) && 0 < |a| && j < |b| && b[j] == a[0]
    ensures multiset(a[1..]) == multiset(b[..j] + b[j + 1..])
  {
    assert b == b[..j] + [b[j]] + b[j + 1..];
    assert a == [a[0]] + a[1..];
    assert multiset(a[1..]) == multiset(a) - multiset{a[0]};
    assert multiset(b[..j] + b[j + 1..]) == multiset(b) - multiset{b[j]};
  }

  /** Two sorted arrangements of the same records have the same timestamp at
      every position: an unstable sort may only reorder records that share a
      timestamp. */
  lemma {:induction false} SortedArrangementsAgree(a: seq<Record>, b: seq<Record>)
    requires Sorted(a) && Sorted(b) && multiset(a) == multiset(b)
    ensures |a| == |b|
    ensures forall i :: 0 <= i < |a| ==> a[i].at == b[i].at
    decreases |a|
  {
    assert |a| == |multiset(a)| == |multiset(b)| == |b|;
    if |a| > 0 {
      assert a[0] in multiset(b);
      var j :| 0 <= j < |b| && b[j] == a[0];
      assert b[0] in multiset(a);
      var k :| 0 <= k < |a| && a[k] == b[0];
      NotAfterAntisymmetric(a[0].at, b[0].at);
      var rest := b[..j] + b[j + 1..];
      MultisetWithout(a, b, j);
      SortedWithout(b, j);
      SortedArrangementsAgree(a[1..], rest);
      forall i | 0 < i < |a|
        ensures a[i].at == b[i].at
      {
        assert a[1..][i - 1] == a[i];
        if i <= j {
          assert rest[i - 1] == b[i - 1];
          NotAfterAntisymmetric(b[i].at, a[0].at);
          NotAfterAntisymmetric(b[i - 1].at, a[0].at);
        } else {
          assert rest[i - 1] == b[i];
        }
      }
    }
  }
}
