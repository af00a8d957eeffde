/** Sums over recorded demand in time order: sumBetween of
    internal/quota/capacity.go and the search it starts with. */
module DemandSums {
  import opened Records
  import opened Rolling

  ghost predicate InOrder(ds: seq<Demand>) {
    forall i, j :: 0 <= i < j < |ds| ==> ds[i].at <= ds[j].at
  }

  /** The demand from from up to, but not including, to. */
  function SumIn(ds: seq<Demand>, from: Time, to: Time): real {
    if ds == [] then 0.0
    else
      var d := ds[|ds| - 1];
      SumIn(ds[..|ds| - 1], from, to) + (if from <= d.at < to then d.weight else 0.0)
  }

  lemma {:induction false} SumInSplits(ds: seq<Demand>, from: Time, mid: Time, to: Time)
    requires from <= mid <= to
    ensures SumIn(ds, from, mid) + SumIn(ds, mid, to) == SumIn(ds, from, to)
  {
    if ds != [] {
      SumInSplits(ds[..|ds| - 1], from, mid, to);
    }
  }

  lemma {:induction false} SumInNone(ds: seq<Demand>, from: Time, to: Time)
    requires forall d :: d in ds ==> !(from <= d.at < to)
    ensures SumIn(ds, from, to) == 0.0
  {
    if ds != [] {
      SumInNone(ds[..|ds| - 1], from, to);
    }
  }

  lemma {:induction false} SumInConcat(a: seq<Demand>, b: seq<Demand>, from: Time, to: Time)
    ensures SumIn(a + b, from, to) == SumIn(a, from, to) + SumIn(b, from, to)
  {
    if b == [] {
      assert a + b == a;
    } else {
      SumInConcat(a, b[..|b| - 1], from, to);
      assert (a + b)[..|a + b| - 1] == a + b[..|b| - 1];
    }
  }

  /** One request counts from from on, and no longer at to. */
  lemma SumInOne(d: Demand, from: Time, to: Time)
    ensures SumIn([d], from, to) == if d.at >= from && d.at < to then d.weight else 0.0
  {
    assert [d][..0] == [] && SumIn([], from, to) == 0.0;
  }

  lemma {:induction false} SumInNonNegative(ds: seq<Demand>, from: Time, to: Time, mid: Time)
    requires mid <= to && forall d :: d in ds ==> d.weight >= 0.0
    ensures 0.0 <= SumIn(ds, from, mid) <= SumIn(ds, from, to)
  {
    if ds != [] {
      SumInNonNegative(ds[..|ds| - 1], from, to, mid);
    }
  }

  /** Go's sort.Search: the first demand at or after t. */
  method Search(ds: seq<Demand>, t: Time) returns (i: nat)
    requires InOrder(ds)
    ensures i <= |ds|
    ensures forall j :: 0 <= j < i ==> ds[j].at < t
    ensures forall j :: i <= j < |ds| ==> t <= ds[j].at
  {
    var lo, hi := 0, |ds|;
    while lo < hi
      invariant 0 <= lo <= hi <= |ds|
      invariant forall j :: 0 <= j < lo ==> ds[j].at < t
      invariant forall j :: hi <= j < |ds| ==> t <= ds[j].at
    {
      var mid := (lo + hi) / 2;
      if t <= ds[mid].at {
        hi := mid;
      } else {
        lo := mid + 1;
      }
    }
    i := lo;
  }

  lemma {:induction false} SumInSplitsAt(ds: seq<Demand>, from: Time, until: Time, to: Time)
    requires until <= to && forall j :: 0 <= j < |ds| ==> ds[j].at < until
    ensures SumIn(ds, from, until) == SumIn(ds, from, to)
  {
    if ds != [] {
      SumInSplitsAt(ds[..|ds| - 1], from, until, to);
    }
  }

  /** The weight of demand from from through to, inclusive. */
  method SumBetween(ds: seq<Demand>, from: Time, to: Time) returns (sum: real)
    requires InOrder(ds)
    ensures sum == SumIn(ds, from, to + 1)
  {
    hide InOrder;
    var i := Search(ds, from);
    sum := 0.0;
    SumInNone(ds[..i], from, to + 1);
    while i < |ds| && ds[i].at <= to
      invariant i <= |ds| && sum == SumIn(ds[..i], from, to + 1)
      invariant forall j :: i <= j < |ds| ==> from <= ds[j].at
    {
      assert ds[..i + 1][..i] == ds[..i];
      sum := sum + ds[i].weight;
      i := i + 1;
    }
    RestIsLater(ds, i, from, to + 1);
  }

  lemma RestIsLater(ds: seq<Demand>, i: nat, from: Time, to: Time)
    requires InOrder(ds) && i <= |ds| && (i < |ds| ==> to <= ds[i].at)
    ensures SumIn(ds, from, to) == SumIn(ds[..i], from, to)
  {
    assert ds == ds[..i] + ds[i..];
    SumInConcat(ds[..i], ds[i..], from, to);
    SumInNone(ds[i..], from, to);
  }
}
