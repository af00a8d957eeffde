/** The rolling demand of internal/quota/capacity.go: one sweep over sorted
    changes that stands for a sum over a sliding window at every moment. */
module Rolling {
  import opened Records
  import opened Sorting

  datatype Demand = Demand(at: Time, weight: real)

  datatype DemandSpan = DemandSpan(start: Time, end: Time, weight: real)

  datatype RollingUsage = RollingUsage(
    peak: real, peakAt: Option<Time>, p50: real, p90: real, p95: real, p99: real, spans: seq<DemandSpan>)

  // ------------------------------------------------------------ what it means

  /** An event weighs on t when it happened in (t - window, t]. */
  predicate Weighs(d: Demand, window: Time, t: Time) {
    d.weight > 0.0 && t - window < d.at <= t
  }

  /** The demand in the window that ends at t. */
  function Load(events: seq<Demand>, window: Time, t: Time): (load: real)
    ensures load >= 0.0
  {
    if events == [] then 0.0
    else
      var d := events[|events| - 1];
      Load(events[..|events| - 1], window, t) + (if Weighs(d, window, t) then d.weight else 0.0)
  }

  /** Spans follow one another without a gap from start to end. */
  ghost predicate Tiles(spans: seq<DemandSpan>, start: Time, end: Time) {
    if spans == [] then start == end
    else
      var s := spans[|spans| - 1];
      s.start < s.end == end && Tiles(spans[..|spans| - 1], start, s.start)
  }

  ghost predicate SpansShowLoad(spans: seq<DemandSpan>, events: seq<Demand>, window: Time) {
    forall s, t :: s in spans && s.start <= t < s.end ==> s.weight == Load(events, window, t)
  }

  /** peak is the highest load in [start, end), and at when it is first reached. */
  ghost predicate IsPeak(events: seq<Demand>, window: Time, start: Time, end: Time, peak: real, at: Time) {
    && start <= at < end && Load(events, window, at) == peak
    && (forall t :: start <= t < end ==> Load(events, window, t) <= peak)
    && (forall t :: start <= t < at ==> Load(events, window, t) < peak)
  }

  /** The moments of [start, end) at which the load is at most w. */
  ghost function MomentsAtMost(events: seq<Demand>, window: Time, start: Time, end: Time, w: real): set<Time> {
    set t | start <= t < end && Load(events, window, t) <= w
  }

  /** w is a load that is reached, at least p of the time the load is no
      higher, and of no lower load is that true. */
  ghost predicate PercentileOfLoad(events: seq<Demand>, window: Time, start: Time, end: Time, p: real, w: real) {
    && (exists t :: start <= t < end && Load(events, window, t) == w)
    && |MomentsAtMost(events, window, start, end, w)| as real >= p * (end - start) as real
    && forall t :: start <= t < end && Load(events, window, t) < w ==>
         |MomentsAtMost(events, window, start, end, Load(events, window, t))| as real < p * (end - start) as real
  }

  /** How long the weight is at most w. */
  function Covered(spans: seq<DemandSpan>, w: real): int {
    if spans == [] then 0
    else
      var s := spans[|spans| - 1];
      Covered(spans[..|spans| - 1], w) + (if s.weight <= w then s.end - s.start else 0)
  }

  /** w is the least of the weights that cover at least the threshold. */
  ghost predicate IsPercentile(spans: seq<DemandSpan>, threshold: real, w: real) {
    && (exists s :: s in spans && s.weight == w)
    && Covered(spans, w) as real >= threshold
    && (forall s :: s in spans && s.weight < w ==> (Covered(spans, s.weight) as real) < threshold)
  }

  /** p of the total time. */
  function Threshold(total: Time, p: real): real {
    total as real * p
  }

  lemma ThresholdWithin(total: Time, p: real)
    requires total > 0 && 0.0 < p <= 1.0
    ensures 0.0 < Threshold(total, p) <= total as real
  {
  }

  lemma ThresholdsOrdered(total: Time, p: real, q: real)
    requires total > 0 && p <= q
    ensures Threshold(total, p) <= Threshold(total, q)
  {
  }

  lemma PercentilesOrdered(spans: seq<DemandSpan>, total: Time, p: real, w: real, q: real, v: real)
    requires p <= q && total > 0
    requires IsPercentile(spans, Threshold(total, p), w) && IsPercentile(spans, Threshold(total, q), v)
    ensures w <= v
  {
    ThresholdsOrdered(total, p, q);
    hide Threshold;
  }

  // ------------------------------------------------------------------ changes

  datatype Change = Change(at: Time, weight: real)

  function ChangeTime(c: Change): int { c.at }

  /** What the changes up to t add up to. */
  function Total(changes: seq<Change>, t: Time): real {
    if changes == [] then 0.0
    else
      var c := changes[|changes| - 1];
      Total(changes[..|changes| - 1], t) + (if c.at <= t then c.weight else 0.0)
  }

  lemma {:induction false} TotalConcat(a: seq<Change>, b: seq<Change>, t: Time)
    ensures Total(a + b, t) == Total(a, t) + Total(b, t)
  {
    if b == [] {
      assert a + b == a;
    } else {
      TotalConcat(a, b[..|b| - 1], t);
      assert (a + b)[..|a + b| - 1] == a + b[..|b| - 1];
    }
  }

  /** The order of the changes does not matter. */
  lemma {:induction false} TotalPermuted(a: seq<Change>, b: seq<Change>, t: Time)
    requires multiset(a) == multiset(b)
    ensures Total(a, t) == Total(b, t)
  {
    if a == [] {
      assert |multiset(b)| == 0;
    } else {
      var i := Extract(a, b);
      var rest := b[..i] + b[i + 1..];
      TotalPermuted(a[..|a| - 1], rest, t);
      TotalConcat(b[..i], b[i + 1..], t);
      TotalConcat(b[..i], [b[i]], t);
      TotalConcat(b[..i] + [b[i]], b[i + 1..], t);
      assert [b[i]][..0] == [];
    }
  }

  lemma {:induction false} TotalOfLater(changes: seq<Change>, t: Time)
    requires forall c :: c in changes ==> c.at > t
    ensures Total(changes, t) == 0.0
  {
    if changes != [] {
      TotalOfLater(changes[..|changes| - 1], t);
    }
  }

  lemma {:induction false} TotalOfEarlier(changes: seq<Change>, t: Time, u: Time)
    requires forall c :: c in changes ==> c.at <= t && c.at <= u
    ensures Total(changes, t) == Total(changes, u)
  {
    if changes != [] {
      TotalOfEarlier(changes[..|changes| - 1], t, u);
    }
  }

  /** The two changes of an event that can weigh in [start, end). */
  function ChangesOf(d: Demand, start: Time, end: Time, window: Time): seq<Change> {
    if d.weight > 0.0 && d.at < end && d.at + window > start
    then [Change(d.at, d.weight), Change(d.at + window, -d.weight)]
    else []
  }

  lemma ChangesWeigh(changes: seq<Change>, events: seq<Demand>, d: Demand, start: Time, end: Time, window: Time,
                     t: Time)
    requires window > 0 && start <= t < end && Total(changes, t) == Load(events, window, t)
    ensures Total(changes + ChangesOf(d, start, end, window), t) == Load(events + [d], window, t)
  {
    TotalConcat(changes, ChangesOf(d, start, end, window), t);
    assert (events + [d])[..|events|] == events;
    if ChangesOf(d, start, end, window) != [] {
      var both := [Change(d.at, d.weight)] + [Change(d.at + window, -d.weight)];
      TotalConcat([Change(d.at, d.weight)], [Change(d.at + window, -d.weight)], t);
      assert Total([Change(d.at, d.weight)], t) == if d.at <= t then d.weight else 0.0;
      assert Total([Change(d.at + window, -d.weight)], t) == if d.at + window <= t then -d.weight else 0.0;
      assert both == ChangesOf(d, start, end, window);
    }
  }

  method Changes(events: seq<Demand>, start: Time, end: Time, window: Time) returns (changes: seq<Change>)
    requires window > 0
    ensures forall t :: start <= t < end ==> Total(changes, t) == Load(events, window, t)
  {
    changes := [];
    for i := 0 to |events|
      invariant forall t :: start <= t < end ==> Total(changes, t) == Load(events[..i], window, t)
    {
      var d := events[i];
      ghost var before := changes;
      if d.weight > 0.0 {
        if d.at < end && d.at + window > start {
          changes := changes + [Change(d.at, d.weight), Change(d.at + window, -d.weight)];
        }
      }
      assert changes == before + ChangesOf(d, start, end, window);
      forall t | start <= t < end ensures Total(changes, t) == Load(events[..i + 1], window, t) {
        ChangesWeigh(before, events[..i], d, start, end, window, t);
        assert events[..i + 1] == events[..i] + [d];
      }
    }
    assert events[..|events|] == events;
  }

  /** Between two neighbouring changes the load is the sum of the ones before. */
  lemma LoadBetween(changes: seq<Change>, i: nat, at: Time, t: Time)
    requires i <= |changes| && at <= t
    requires forall j :: 0 <= j < i ==> changes[j].at <= at
    requires forall j :: i <= j < |changes| ==> t < changes[j].at
    ensures Total(changes, t) == Total(changes[..i], at)
  {
    assert changes == changes[..i] + changes[i..];
    TotalConcat(changes[..i], changes[i..], t);
    TotalOfLater(changes[i..], t);
    TotalOfEarlier(changes[..i], at, t);
  }

  /** The clamp at zero never fires: what the changes up to t add up to, in any
      sorting of them, is the load at t, and a load is never negative. */
  lemma ClampNeverFires(changes: seq<Change>, events: seq<Demand>, window: Time, i: nat, t: Time)
    requires i <= |changes| && Total(changes, t) == Load(events, window, t)
    requires forall j :: 0 <= j < i ==> changes[j].at <= t
    requires forall j :: i <= j < |changes| ==> t < changes[j].at
    ensures MaxReal(0.0, Total(changes[..i], t)) == Total(changes[..i], t) == Load(events, window, t)
  {
    LoadBetween(changes, i, t, t);
  }

  lemma TotalOneMore(changes: seq<Change>, i: nat, at: Time)
    requires i < |changes| && changes[i].at <= at
    ensures Total(changes[..i + 1], at) == Total(changes[..i], at) + changes[i].weight
  {
    assert changes[..i + 1][..i] == changes[..i];
  }

  /** Adds the changes up to at, in order. */
  method Advance(changes: seq<Change>, i: nat, at: Time, current: real) returns (i': nat, current': real)
    requires SortedBy(changes, ChangeTime) && i <= |changes|
    requires forall j :: 0 <= j < i ==> changes[j].at <= at
    requires current == Total(changes[..i], at)
    ensures i <= i' <= |changes| && current' == Total(changes[..i'], at)
    ensures forall j :: 0 <= j < i' ==> changes[j].at <= at
    ensures forall j :: i' <= j < |changes| ==> changes[j].at > at
  {
    i', current' := i, current;
    while i' < |changes| && changes[i'].at <= at
      invariant i <= i' <= |changes| && current' == Total(changes[..i'], at)
      invariant forall j :: 0 <= j < i' ==> changes[j].at <= at
    {
      TotalOneMore(changes, i', at);
      current' := current' + changes[i'].weight;
      i' := i' + 1;
    }
    forall j | i' <= j < |changes| ensures changes[j].at > at {
      assert ChangeTime(changes[i']) <= ChangeTime(changes[j]);
    }
  }

  // ---------------------------------------------------------------- the sweep

  lemma TilesOneMore(spans: seq<DemandSpan>, start: Time, last: Time, s: DemandSpan)
    requires Tiles(spans, start, last) && s.start == last < s.end
    ensures Tiles(spans + [s], start, s.end)
  {
    assert (spans + [s])[..|spans|] == spans;
  }

  /** The sweep's state: i changes taken, all of them up to last and no other;
      spans show the load up to last, and the peak is the highest up to and at last. */
  ghost predicate Swept(changes: seq<Change>, events: seq<Demand>, window: Time, start: Time, end: Time,
                        i: nat, current: real, last: Time, spans: seq<DemandSpan>, peak: real, peakAt: Time) {
    && i <= |changes| && start <= last < end
    && (forall j :: 0 <= j < i ==> changes[j].at <= last)
    && (forall j :: i <= j < |changes| ==> changes[j].at > last)
    && current == Total(changes[..i], last)
    && Tiles(spans, start, last) && SpansShowLoad(spans, events, window)
    && start <= peakAt <= last && Load(events, window, peakAt) == peak
    && (forall t :: start <= t <= last ==> Load(events, window, t) <= peak)
    && (forall t :: start <= t < peakAt ==> Load(events, window, t) < peak)
  }

  /** Until the next change the load stays what it was. */
  lemma SteadyLoad(changes: seq<Change>, events: seq<Demand>, window: Time, start: Time, end: Time,
                   i: nat, last: Time, until: Time)
    requires i <= |changes| && start <= last < until <= end
    requires forall t :: start <= t < end ==> Total(changes, t) == Load(events, window, t)
    requires forall j :: 0 <= j < i ==> changes[j].at <= last
    requires forall j :: i <= j < |changes| ==> changes[j].at >= until
    ensures forall t :: last <= t < until ==> Load(events, window, t) == Total(changes[..i], last)
  {
    forall t | last <= t < until ensures Load(events, window, t) == Total(changes[..i], last) {
      assert Total(changes, t) == Load(events, window, t);
      LoadBetween(changes, i, last, t);
    }
  }

  /** One step of the sweep, over all the changes at one time. */
  method SweepStep(changes: seq<Change>, ghost events: seq<Demand>, window: Time, start: Time, end: Time,
                   i: nat, current: real, last: Time, spans: seq<DemandSpan>, peak: real, peakAt: Time)
      returns (i': nat, current': real, last': Time, spans': seq<DemandSpan>, peak': real, peakAt': Time)
    requires SortedBy(changes, ChangeTime)
    requires forall t :: start <= t < end ==> Total(changes, t) == Load(events, window, t)
    requires Swept(changes, events, window, start, end, i, current, last, spans, peak, peakAt)
    requires i < |changes| && changes[i].at < end
    ensures Swept(changes, events, window, start, end, i', current', last', spans', peak', peakAt') && i' > i
  {
    var at := changes[i].at;
    spans', peak', peakAt' := spans, peak, peakAt;
    forall j | i <= j < |changes| ensures changes[j].at >= at {
      assert ChangeTime(changes[i]) <= ChangeTime(changes[j]);
    }
    SteadyLoad(changes, events, window, start, end, i, last, at);
    if at > last {
      spans' := spans + [DemandSpan(last, at, current)];
      TilesOneMore(spans, start, last, DemandSpan(last, at, current));
    }
    TotalOfEarlier(changes[..i], last, at);
    i', current' := Advance(changes, i, at, current);
    ClampNeverFires(changes, events, window, i', at);
    current' := MaxReal(0.0, current');
    if current' > peak {
      peak', peakAt' := current', at;
    }
    last' := at;
    forall t | start <= t <= last' ensures Load(events, window, t) <= peak' {
      if last <= t < at {
        assert Load(events, window, t) == current == Load(events, window, last);
      }
    }
    assert i' > i;
  }

  /** The demand measured over (t - window, t] for every t in [start, end). */
  method Measure(events: seq<Demand>, start: Time, end: Time, window: Time) returns (usage: RollingUsage)
    ensures end <= start || window <= 0 ==> usage == RollingUsage(0.0, None, 0.0, 0.0, 0.0, 0.0, [])
    ensures start < end && window > 0 ==>
              && Tiles(usage.spans, start, end) && SpansShowLoad(usage.spans, events, window)
              && usage.peakAt.Some? && IsPeak(events, window, start, end, usage.peak, usage.peakAt.value)
              && PercentileOfLoad(events, window, start, end, 0.50, usage.p50)
              && PercentileOfLoad(events, window, start, end, 0.90, usage.p90)
              && PercentileOfLoad(events, window, start, end, 0.95, usage.p95)
              && PercentileOfLoad(events, window, start, end, 0.99, usage.p99)
              && usage.p50 <= usage.p90 <= usage.p95 <= usage.p99 <= usage.peak
  {
    hide Threshold;
    usage := RollingUsage(0.0, None, 0.0, 0.0, 0.0, 0.0, []);
    if end <= start || window <= 0 {
      return;
    }
    var spans, peak, peakAt := Sweep(events, start, end, window);
    var p50, p90, p95, p99 := Percentiles(spans, start, end);
    var total := end - start;
    PercentilesOrdered(spans, total, 0.50, p50, 0.90, p90);
    PercentilesOrdered(spans, total, 0.90, p90, 0.95, p95);
    PercentilesOrdered(spans, total, 0.95, p95, 0.99, p99);
    usage := RollingUsage(peak, Some(peakAt), p50, p90, p95, p99, spans);
    WeightsBelowPeak(events, start, end, window, spans, peak, peakAt, p99);
    hide IsPercentile, PercentileOfLoad, Tiles, SpansShowLoad, IsPeak;
    PercentileMeans(spans, events, window, start, end, 0.50, p50);
    PercentileMeans(spans, events, window, start, end, 0.90, p90);
    PercentileMeans(spans, events, window, start, end, 0.95, p95);
    PercentileMeans(spans, events, window, start, end, 0.99, p99);
  }

  method Percentiles(spans: seq<DemandSpan>, start: Time, end: Time)
    returns (p50: real, p90: real, p95: real, p99: real)
    requires Tiles(spans, start, end) && start < end
    ensures IsPercentile(spans, Threshold(end - start, 0.50), p50)
    ensures IsPercentile(spans, Threshold(end - start, 0.90), p90)
    ensures IsPercentile(spans, Threshold(end - start, 0.95), p95)
    ensures IsPercentile(spans, Threshold(end - start, 0.99), p99)
  {
    var ranked := RankByWeight(spans);
    var total := end - start;
    TilesDuration(spans, start, end);
    SumsPermuted(spans, ranked, 0.0);
    assert forall x :: x in ranked ==> x in multiset(spans);
    hide Threshold, Tiles, IsPercentile, FirstToCover, RankedByWeight;
    p50 := Percentile(ranked, total, 0.50);
    p90 := Percentile(ranked, total, 0.90);
    p95 := Percentile(ranked, total, 0.95);
    p99 := Percentile(ranked, total, 0.99);
    PercentilePermuted(ranked, spans, Threshold(total, 0.50), p50);
    PercentilePermuted(ranked, spans, Threshold(total, 0.90), p90);
    PercentilePermuted(ranked, spans, Threshold(total, 0.95), p95);
    PercentilePermuted(ranked, spans, Threshold(total, 0.99), p99);
  }

  lemma WeightsBelowPeak(events: seq<Demand>, start: Time, end: Time, window: Time, spans: seq<DemandSpan>,
                         peak: real, peakAt: Time, w: real)
    requires Tiles(spans, start, end) && SpansShowLoad(spans, events, window)
    requires IsPeak(events, window, start, end, peak, peakAt) && exists s :: s in spans && s.weight == w
    ensures w <= peak
  {
    var s :| s in spans && s.weight == w;
    TilesWithin(spans, start, end, s);
    assert s.weight == Load(events, window, s.start);
  }

  /** The changes in some order of time. */
  method SortedChanges(events: seq<Demand>, start: Time, end: Time, window: Time) returns (changes: seq<Change>)
    requires window > 0
    ensures SortedBy(changes, ChangeTime)
    ensures forall t :: start <= t < end ==> Total(changes, t) == Load(events, window, t)
  {
    var unsorted := Changes(events, start, end, window);
    SortingExists(unsorted, ChangeTime);
    changes :| IsSorting(changes, unsorted, ChangeTime);
    forall t | start <= t < end ensures Total(changes, t) == Load(events, window, t) {
      TotalPermuted(unsorted, changes, t);
      assert Total(unsorted, t) == Load(events, window, t);
    }
  }

  /** The spans and the peak. What the sweep holds is the load at every step
      (ClampNeverFires). */
  method Sweep(events: seq<Demand>, start: Time, end: Time, window: Time)
      returns (spans: seq<DemandSpan>, peak: real, peakAt: Time)
    requires start < end && window > 0
    ensures Tiles(spans, start, end) && SpansShowLoad(spans, events, window) && spans != []
    ensures IsPeak(events, window, start, end, peak, peakAt)
  {
    var changes := SortedChanges(events, start, end, window);
    assert Total(changes[..0], start) == 0.0;
    var i, current := Advance(changes, 0, start, 0.0);
    ClampNeverFires(changes, events, window, i, start);
    current := MaxReal(0.0, current);
    spans, peak, peakAt := [], current, start;
    var last := start;
    while i < |changes| && changes[i].at < end
      invariant Swept(changes, events, window, start, end, i, current, last, spans, peak, peakAt)
    {
      hide Swept;
      i, current, last, spans, peak, peakAt :=
        SweepStep(changes, events, window, start, end, i, current, last, spans, peak, peakAt);
    }
    SweepEnds(changes, events, window, start, end, i, current, last, spans, peak, peakAt);
    spans := spans + [DemandSpan(last, end, current)];
  }

  /** The last span reaches from the last change to the end. */
  lemma SweepEnds(changes: seq<Change>, events: seq<Demand>, window: Time, start: Time, end: Time, i: nat,
                  current: real, last: Time, spans: seq<DemandSpan>, peak: real, peakAt: Time)
    requires SortedBy(changes, ChangeTime) && (i < |changes| ==> changes[i].at >= end)
    requires forall t :: start <= t < end ==> Total(changes, t) == Load(events, window, t)
    requires Swept(changes, events, window, start, end, i, current, last, spans, peak, peakAt)
    ensures var all := spans + [DemandSpan(last, end, current)];
            Tiles(all, start, end) && SpansShowLoad(all, events, window)
    ensures IsPeak(events, window, start, end, peak, peakAt)
  {
    forall j | i <= j < |changes| ensures changes[j].at >= end {
      assert ChangeTime(changes[i]) <= ChangeTime(changes[j]);
    }
    SteadyLoad(changes, events, window, start, end, i, last, end);
    TilesOneMore(spans, start, last, DemandSpan(last, end, current));
    assert Load(events, window, last) == current;
  }

  // -------------------------------------------------------------- percentiles

  predicate RankedByWeight(spans: seq<DemandSpan>) {
    forall i, j :: 0 <= i < j < |spans| ==> spans[i].weight <= spans[j].weight
  }

  /** Puts a span behind the ones no heavier. */
  ghost function RankIn(ranked: seq<DemandSpan>, s: DemandSpan): (r: seq<DemandSpan>)
    ensures multiset(r) == multiset(ranked) + multiset{s}
  {
    if ranked == [] || ranked[|ranked| - 1].weight <= s.weight then ranked + [s]
    else
      var n := |ranked| - 1;
      assert ranked == ranked[..n] + [ranked[n]];
      RankIn(ranked[..n], s) + [ranked[n]]
  }

  lemma RankedSnoc(ranked: seq<DemandSpan>, s: DemandSpan)
    requires RankedByWeight(ranked) && forall x :: x in ranked ==> x.weight <= s.weight
    ensures RankedByWeight(ranked + [s])
  {
    var all := ranked + [s];
    forall i, j | 0 <= i < j < |all| ensures all[i].weight <= all[j].weight {
      assert all[i] == ranked[i];
      if j < |ranked| {
        assert all[j] == ranked[j];
      }
    }
  }

  lemma {:induction false} RankInBelow(ranked: seq<DemandSpan>, s: DemandSpan, w: real)
    requires s.weight <= w && forall x :: x in ranked ==> x.weight <= w
    ensures forall x :: x in RankIn(ranked, s) ==> x.weight <= w
  {
    var n := |ranked| - 1;
    if n >= 0 && ranked[n].weight > s.weight {
      RankInBelow(ranked[..n], s, w);
    }
  }

  lemma {:induction false} RankInRanks(ranked: seq<DemandSpan>, s: DemandSpan)
    requires RankedByWeight(ranked)
    ensures RankedByWeight(RankIn(ranked, s))
  {
    var n := |ranked| - 1;
    if n >= 0 {
      HighestRanked(ranked);
    }
    if n >= 0 && ranked[n].weight > s.weight {
      RankInRanks(ranked[..n], s);
      RankInBelow(ranked[..n], s, ranked[n].weight);
      hide RankedByWeight;
      RankedSnoc(RankIn(ranked[..n], s), ranked[n]);
    } else {
      hide RankedByWeight;
      RankedSnoc(ranked, s);
    }
  }

  lemma HighestRanked(ranked: seq<DemandSpan>)
    requires RankedByWeight(ranked) && ranked != []
    ensures RankedByWeight(ranked[..|ranked| - 1]) && forall x :: x in ranked ==>
        x.weight <= ranked[|ranked| - 1].weight
  {
  }

  lemma {:induction false} RankingExists(spans: seq<DemandSpan>) returns (r: seq<DemandSpan>)
    ensures multiset(r) == multiset(spans) && RankedByWeight(r)
  {
    r := [];
    if spans != [] {
      var n := |spans| - 1;
      assert spans == spans[..n] + [spans[n]];
      var rest := RankingExists(spans[..n]);
      RankInRanks(rest, spans[n]);
      r := RankIn(rest, spans[n]);
    }
  }

  method RankByWeight(spans: seq<DemandSpan>) returns (ranked: seq<DemandSpan>)
    ensures RankedByWeight(ranked) && multiset(ranked) == multiset(spans)
  {
    ghost var sample := RankingExists(spans);
    ranked :| RankedByWeight(ranked) && multiset(ranked) == multiset(spans);
  }

  function Duration(spans: seq<DemandSpan>): int {
    if spans == [] then 0
    else Duration(spans[..|spans| - 1]) + spans[|spans| - 1].end - spans[|spans| - 1].start
  }

  ghost predicate AllLast(spans: seq<DemandSpan>) {
    forall s :: s in spans ==> s.start < s.end
  }

  lemma {:induction false} TilesDuration(spans: seq<DemandSpan>, start: Time, end: Time)
    requires Tiles(spans, start, end)
    ensures Duration(spans) == end - start && AllLast(spans)
  {
    if spans != [] {
      TilesDuration(spans[..|spans| - 1], start, spans[|spans| - 1].start);
    }
  }

  lemma {:induction false} TilesWithin(spans: seq<DemandSpan>, start: Time, end: Time, s: DemandSpan)
    requires Tiles(spans, start, end) && s in spans
    ensures start <= s.start < s.end <= end
  {
    var n := |spans| - 1;
    TilesDuration(spans[..n], start, spans[n].start);
    TilesNonEmpty(spans[..n], start, spans[n].start);
    if s != spans[n] {
      TilesWithin(spans[..n], start, spans[n].start, s);
    }
  }

  lemma {:induction false} TilesNonEmpty(spans: seq<DemandSpan>, start: Time, end: Time)
    requires Tiles(spans, start, end)
    ensures start <= end
  {
    if spans != [] {
      TilesNonEmpty(spans[..|spans| - 1], start, spans[|spans| - 1].start);
    }
  }

  lemma {:induction false} SumsConcat(a: seq<DemandSpan>, b: seq<DemandSpan>, w: real)
    ensures Duration(a + b) == Duration(a) + Duration(b)
    ensures Covered(a + b, w) == Covered(a, w) + Covered(b, w)
  {
    if b == [] {
      assert a + b == a;
    } else {
      SumsConcat(a, b[..|b| - 1], w);
      assert (a + b)[..|a + b| - 1] == a + b[..|b| - 1];
    }
  }

  lemma {:induction false} SumsPermuted(a: seq<DemandSpan>, b: seq<DemandSpan>, w: real)
    requires multiset(a) == multiset(b)
    ensures Duration(a) == Duration(b) && Covered(a, w) == Covered(b, w)
  {
    if a == [] {
      assert |multiset(b)| == 0;
    } else {
      var i := Extract(a, b);
      SumsPermuted(a[..|a| - 1], b[..i] + b[i + 1..], w);
      SumsConcat(b[..i], b[i + 1..], w);
      SumsConcat(b[..i], [b[i]], w);
      SumsConcat(b[..i] + [b[i]], b[i + 1..], w);
      assert [b[i]][..0] == [];
    }
  }

  lemma PercentilePermuted(a: seq<DemandSpan>, b: seq<DemandSpan>, threshold: real, w: real)
    requires multiset(a) == multiset(b) && IsPercentile(a, threshold, w)
    ensures IsPercentile(b, threshold, w)
  {
    forall s ensures s in a <==> s in b {
      assert s in multiset(a) <==> s in multiset(b);
    }
    forall v ensures Covered(a, v) == Covered(b, v) {
      SumsPermuted(a, b, v);
    }
  }

  lemma {:induction false} CoveredBounds(spans: seq<DemandSpan>, w: real)
    requires AllLast(spans)
    ensures 0 <= Covered(spans, w) <= Duration(spans)
    ensures (forall s :: s in spans ==> s.weight <= w) ==> Covered(spans, w) == Duration(spans)
    ensures (forall s :: s in spans ==> s.weight > w) ==> Covered(spans, w) == 0
  {
    if spans != [] {
      CoveredBounds(spans[..|spans| - 1], w);
    }
  }

  lemma RankedHalves(ranked: seq<DemandSpan>, k: nat)
    requires RankedByWeight(ranked) && AllLast(ranked) && k < |ranked|
    ensures AllLast(ranked[..k]) && AllLast(ranked[..k + 1]) && AllLast(ranked[k..])
    ensures forall s :: s in ranked[..k + 1] ==> s.weight <= ranked[k].weight
    ensures forall s :: s in ranked[k..] ==> s.weight >= ranked[k].weight
  {
    forall s | s in ranked[..k + 1] ensures s in ranked && s.weight <= ranked[k].weight {
      var i :| 0 <= i <= k && ranked[i] == s;
    }
    forall s | s in ranked[k..] ensures s in ranked && s.weight >= ranked[k].weight {
      var i :| k <= i < |ranked| && ranked[i] == s;
    }
    hide RankedByWeight;
    forall s | s in ranked[..k] ensures s in ranked {
    }
  }

  lemma CoveredRanked(ranked: seq<DemandSpan>, k: nat)
    requires RankedByWeight(ranked) && AllLast(ranked) && k < |ranked|
    ensures Covered(ranked, ranked[k].weight) >= Duration(ranked[..k + 1])
  {
    RankedHalves(ranked, k);
    var w := ranked[k].weight;
    assert ranked == ranked[..k + 1] + ranked[k + 1..];
    assert AllLast(ranked[k + 1..]) by {
      assert forall s :: s in ranked[k + 1..] ==> s in ranked;
    }
    hide RankedByWeight, Covered, Duration, AllLast;
    SumsConcat(ranked[..k + 1], ranked[k + 1..], w);
    CoveredBounds(ranked[..k + 1], w);
    CoveredBounds(ranked[k + 1..], w);
  }

  lemma CoveredBelow(ranked: seq<DemandSpan>, k: nat, v: real)
    requires RankedByWeight(ranked) && AllLast(ranked) && k < |ranked| && v < ranked[k].weight
    ensures Covered(ranked, v) <= Duration(ranked[..k])
  {
    RankedHalves(ranked, k);
    assert ranked == ranked[..k] + ranked[k..];
    hide RankedByWeight, Covered, Duration, AllLast;
    SumsConcat(ranked[..k], ranked[k..], v);
    CoveredBounds(ranked[..k], v);
    CoveredBounds(ranked[k..], v);
  }

  /** How long the lightest n spans last. */
  function DurationTo(ranked: seq<DemandSpan>, n: int): int
    requires 0 <= n <= |ranked|
  {
    Duration(ranked[..n])
  }

  lemma DurationStep(ranked: seq<DemandSpan>, n: nat)
    requires n < |ranked|
    ensures DurationTo(ranked, n + 1) == DurationTo(ranked, n) + ranked[n].end - ranked[n].start
  {
    assert ranked[..n + 1][..n] == ranked[..n];
  }

  /** Span k is the first with which the spans up to it last at least the threshold. */
  ghost predicate FirstToCover(ranked: seq<DemandSpan>, threshold: real, k: int) {
    && 0 <= k < |ranked| && DurationTo(ranked, k + 1) as real >= threshold
    && (forall j :: 0 < j <= k ==> (DurationTo(ranked, j) as real) < threshold)
  }

  /** The weight that is first to cover is the least that covers. */
  lemma FirstIsPercentile(ranked: seq<DemandSpan>, threshold: real, k: nat)
    requires RankedByWeight(ranked) && AllLast(ranked) && FirstToCover(ranked, threshold, k) && threshold > 0.0
    ensures IsPercentile(ranked, threshold, ranked[k].weight)
  {
    var w := ranked[k].weight;
    CoveredRanked(ranked, k);
    assert (DurationTo(ranked, k) as real) < threshold;
    forall s | s in ranked && s.weight < w ensures Covered(ranked, s.weight) <= Duration(ranked[..k]) {
      CoveredBelow(ranked, k, s.weight);
    }
  }

  /** The loop over the ranked spans always returns from within: the fallback
      behind it is not reached while the threshold is at most the whole time. */
  lemma FallbackNotReached(ranked: seq<DemandSpan>, threshold: real)
    requires 0.0 < threshold <= Duration(ranked) as real
    ensures exists k :: FirstToCover(ranked, threshold, k)
  {
    var k := 0;
    assert ranked[..|ranked|] == ranked;
    assert DurationTo(ranked, |ranked|) == Duration(ranked);
    while (DurationTo(ranked, k + 1) as real) < threshold
      invariant 0 <= k < |ranked| && (forall j :: 0 < j <= k ==> (DurationTo(ranked, j) as real) < threshold)
      decreases |ranked| - k
    {
      k := k + 1;
    }
    assert FirstToCover(ranked, threshold, k);
  }

  /** The weight of the first span, lightest first, with which p of the time is
      covered. Without one the fallback is the heaviest. */
  method Percentile(ranked: seq<DemandSpan>, total: Time, p: real) returns (w: real)
    requires RankedByWeight(ranked)
    ensures total > 0 ==> || (exists k :: FirstToCover(ranked, Threshold(total, p), k) && w == ranked[k].weight)
                          || ((forall k :: !FirstToCover(ranked, Threshold(total, p), k))
                              && w == if ranked == [] then 0.0 else ranked[|ranked| - 1].weight)
    ensures total > 0 && total == Duration(ranked) && 0.0 < p <= 1.0 && AllLast(ranked) ==>
              && IsPercentile(ranked, Threshold(total, p), w)
              && exists k :: FirstToCover(ranked, Threshold(total, p), k) && w == ranked[k].weight
  {
    hide Threshold;
    if total <= 0 {
      return 0.0;
    }
    var threshold := Threshold(total, p);
    w := FirstCovering(ranked, threshold);
    if total == Duration(ranked) && 0.0 < p <= 1.0 && AllLast(ranked) {
      ThresholdWithin(total, p);
      FallbackNotReached(ranked, threshold);
      var k :| FirstToCover(ranked, threshold, k) && w == ranked[k].weight;
      FirstIsPercentile(ranked, threshold, k);
    }
  }

  /** percentile's loop, and what it falls back to. */
  method FirstCovering(ranked: seq<DemandSpan>, threshold: real) returns (w: real)
    ensures || (exists k :: FirstToCover(ranked, threshold, k) && w == ranked[k].weight)
            || ((forall k :: !FirstToCover(ranked, threshold, k))
                && w == if ranked == [] then 0.0 else ranked[|ranked| - 1].weight)
  {
    var elapsed := 0.0;
    for k := 0 to |ranked|
      invariant elapsed == DurationTo(ranked, k) as real
      invariant forall j :: 0 < j <= k ==> (DurationTo(ranked, j) as real) < threshold
    {
      DurationStep(ranked, k);
      elapsed := elapsed + (ranked[k].end - ranked[k].start) as real;
      if elapsed >= threshold {
        assert FirstToCover(ranked, threshold, k);
        return ranked[k].weight;
      }
    }
    if |ranked| > 0 {
      w := ranked[|ranked| - 1].weight;
    } else {
      w := 0.0;
    }
  }

  // ----------------------------------------------------- what the load means

  lemma {:induction false} LoadConcat(a: seq<Demand>, b: seq<Demand>, window: Time, t: Time)
    ensures Load(a + b, window, t) == Load(a, window, t) + Load(b, window, t)
  {
    if b == [] {
      assert a + b == a;
    } else {
      LoadConcat(a, b[..|b| - 1], window, t);
      assert (a + b)[..|a + b| - 1] == a + b[..|b| - 1];
    }
  }

  /** An event weighs from its own moment on, for as long as the window lasts. */
  lemma LoadOne(d: Demand, window: Time, t: Time)
    ensures Load([d], window, t) == if d.weight > 0.0 && d.at <= t && t < d.at + window then d.weight else 0.0
  {
    assert [d][..0] == [] && Load([], window, t) == 0.0;
  }

  predicate Within(t: Time, start: Time, end: Time) {
    start <= t < end
  }

  ghost function Moments(start: Time, end: Time): set<Time> {
    set t | start <= t < end && Within(t, start, end)
  }

  lemma {:induction false} MomentsCount(start: Time, end: Time)
    requires start <= end
    ensures |Moments(start, end)| == end - start
    decreases end - start
  {
    if start < end {
      MomentsCount(start, end - 1);
      assert Moments(start, end) == Moments(start, end - 1) + {end - 1};
    }
  }

  /** How long spans of at most w last is at how many moments the load is at most w. */
  lemma {:induction false} CoveredIsMoments(spans: seq<DemandSpan>, events: seq<Demand>, window: Time, start: Time,
                                            end: Time, w: real)
    requires Tiles(spans, start, end) && SpansShowLoad(spans, events, window)
    ensures Covered(spans, w) == |MomentsAtMost(events, window, start, end, w)|
  {
    if spans == [] {
      assert MomentsAtMost(events, window, start, end, w) == {};
    } else {
      var n := |spans| - 1;
      var s := spans[n];
      TilesNonEmpty(spans[..n], start, s.start);
      CoveredIsMoments(spans[..n], events, window, start, s.start, w);
      CoveredLast(spans, w);
      hide Load, Covered, MomentsAtMost;
      assert forall t :: s.start <= t < end ==> Load(events, window, t) == s.weight;
      MomentsOneMore(events, window, start, s.start, end, w, s.weight);
    }
  }

  /** While the load stays, its moments all count or none does. */
  lemma MomentsOneMore(events: seq<Demand>, window: Time, start: Time, mid: Time, end: Time, w: real, load: real)
    requires start <= mid <= end && forall t :: mid <= t < end ==> Load(events, window, t) == load
    ensures |MomentsAtMost(events, window, start, end, w)|
         == |MomentsAtMost(events, window, start, mid, w)| + if load <= w then end - mid else 0
  {
    hide Load;
    var before := MomentsAtMost(events, window, start, mid, w);
    MomentsCount(mid, end);
    assert MomentsAtMost(events, window, start, end, w) == before + if load <= w then Moments(mid, end) else {};
    assert before !! Moments(mid, end);
  }

  lemma CoveredLast(spans: seq<DemandSpan>, w: real)
    requires spans != []
    ensures var n := |spans| - 1;
      Covered(spans, w) == Covered(spans[..n], w) + if spans[n].weight <= w then spans[n].end - spans[n].start else 0
  {
  }

  /** Every moment is in a span. */
  lemma {:induction false} SpanOf(spans: seq<DemandSpan>, start: Time, end: Time, t: Time) returns (s: DemandSpan)
    requires Tiles(spans, start, end) && start <= t < end
    ensures s in spans && s.start <= t < s.end
  {
    var n := |spans| - 1;
    s := spans[n];
    if t < s.start {
      s := SpanOf(spans[..n], start, s.start, t);
    }
  }

  /** A percentile of the spans is one of the load over the moments they cover. */
  lemma PercentileMeans(spans: seq<DemandSpan>, events: seq<Demand>, window: Time, start: Time, end: Time, p: real,
                        w: real)
    requires start < end && Tiles(spans, start, end) && SpansShowLoad(spans, events, window)
    requires IsPercentile(spans, Threshold(end - start, p), w)
    ensures PercentileOfLoad(events, window, start, end, p, w)
  {
    CoveredIsMoments(spans, events, window, start, end, w);
    hide Load, Covered, MomentsAtMost, Tiles;
    var s :| s in spans && s.weight == w;
    TilesWithin(spans, start, end, s);
    assert Load(events, window, s.start) == w;
    forall t | start <= t < end && Load(events, window, t) < w
      ensures |MomentsAtMost(events, window, start, end, Load(events, window, t))| as real < p * (end - start) as real {
      var x := SpanOf(spans, start, end, t);
      assert x.weight == Load(events, window, t);
      CoveredIsMoments(spans, events, window, start, end, x.weight);
    }
  }
}
