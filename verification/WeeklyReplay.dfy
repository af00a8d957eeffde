/** Recorded demand replayed against a weekly limit: ReplayWeeklySeries and
    WorstWeekly of internal/quota/capacity.go. */
module WeeklyReplay {
  import opened Records
  import opened Rolling
  import opened DemandSums
  import opened Series
  import opened Thinning

  datatype WeeklyReplay = WeeklyReplay(start: Time, end: Time, peakPercent: real, hitAt: Option<Time>)

  // ---------------------------------------------------------------- the weeks

  /** The reset k weeks after the anchor. */
  function Reset(anchor: Time, k: int): Time {
    anchor + k * WEEK
  }

  ghost predicate Aligned(anchor: Time, start: Time) {
    exists k :: start == Reset(anchor, k)
  }

  /** The reset at or before t. */
  function WeekStart(anchor: Time, t: Time): (start: Time)
    ensures start <= t < start + WEEK && Aligned(anchor, start)
  {
    assert Reset(anchor, (t - anchor) / WEEK) <= t;
    Reset(anchor, (t - anchor) / WEEK)
  }

  /** t lies in the week that starts at start, whichever of the resets that is. */
  lemma WeekStartUnique(anchor: Time, start: Time, t: Time)
    requires Aligned(anchor, start) && start <= t < start + WEEK
    ensures WeekStart(anchor, t) == start
  {
  }

  /** The starts of the weeks of a replay: every reset from the one at or
      before from on, up to to. */
  function Starts(anchor: Time, from: Time, to: Time): seq<Time> {
    StartsFrom(WeekStart(anchor, from), to)
  }

  function StartsFrom(start: Time, to: Time): (starts: seq<Time>)
    ensures forall i :: 0 <= i < |starts| ==> starts[i] == Reset(start, i) && starts[i] < to
    ensures to <= Reset(start, |starts|)
    decreases if start < to then to - start else 0
  {
    if start >= to then [] else [start] + StartsFrom(start + WEEK, to)
  }

  lemma ResetOfReset(anchor: Time, j: int, k: int)
    ensures Reset(Reset(anchor, j), k) == Reset(anchor, j + k)
    ensures j < k ==> Reset(anchor, j) + WEEK <= Reset(anchor, k)
  {
  }

  lemma AlignedIs(anchor: Time, start: Time)
    ensures Aligned(anchor, start) <==> (start - anchor) % 604_800_000_000_000 == 0
  {
    var k := (start - anchor) / WEEK;
    assert (start - anchor) % WEEK == 0 ==> start == Reset(anchor, k);
    if Aligned(anchor, start) {
      var j :| start == Reset(anchor, j);
      DivUnique(start - anchor, WEEK, j, 0);
    }
  }

  /** The weeks of a replay, in order, are exactly those whole weeks from the
      anchor that meet [from, to), and the first contains from, even before the
      anchor. */
  lemma StartsExactly(anchor: Time, from: Time, to: Time, start: Time)
    requires from < to
    ensures var starts := Starts(anchor, from, to);
      && starts != [] && starts[0] <= from < starts[0] + 604_800_000_000_000
      && (forall i :: 0 < i < |starts| ==> starts[i] == starts[i - 1] + 604_800_000_000_000)
      && (start in starts <==>
            (start - anchor) % 604_800_000_000_000 == 0 && start < to && from < start + 604_800_000_000_000)
  {
    AlignedIs(anchor, start);
    StartsAre(anchor, from, to, start);
    hide Starts, Aligned;
  }

  lemma StartsAre(anchor: Time, from: Time, to: Time, start: Time)
    requires from < to
    ensures Starts(anchor, from, to) != [] && Starts(anchor, from, to)[0] <= from < Starts(anchor, from, to)[0] + WEEK
    ensures forall i :: 0 < i < |Starts(anchor, from, to)| ==>
        Starts(anchor, from, to)[i] == Starts(anchor, from, to)[i - 1] + WEEK
    ensures start in Starts(anchor, from, to) <==> Aligned(anchor, start) && start < to && from < start + WEEK
  {
    var first, starts := WeekStart(anchor, from), Starts(anchor, from, to);
    var k0 :| first == Reset(anchor, k0);
    assert first == Reset(first, 0);
    hide WeekStart, Starts, StartsFrom;
    if start in starts {
      var i :| 0 <= i < |starts| && starts[i] == start;
      ResetOfReset(anchor, k0, i);
      ResetOfReset(first, 0, i);
    }
    if Aligned(anchor, start) && start < to && from < start + WEEK {
      var k :| start == Reset(anchor, k);
      ResetOfReset(anchor, k0, k - k0);
      ResetOfReset(anchor, k, k0);
      ResetOfReset(first, |starts|, k - k0);
      hide Reset;
      assert starts[k - k0] == start;
    }
  }

  // ----------------------------------------------------------------- one week

  /** Of the first n requests, at is when the use of [start, end) first passes the capacity. */
  ghost predicate IsHit(demand: seq<Demand>, n: nat, capacity: real, start: Time, end: Time, at: Option<Time>)
    requires n <= |demand|
  {
    if at.Some? then
      && start <= at.value < end
      && (exists i :: 0 <= i < n && demand[i].at == at.value && Passes(demand, i, capacity, start, end))
      && (forall i :: 0 <= i < n && demand[i].at < at.value ==> !Passes(demand, i, capacity, start, end))
    else forall i :: 0 <= i < n && start <= demand[i].at < end ==> !Passes(demand, i, capacity, start, end)
  }

  /** The use of [start, end) is over the capacity once request i is in. */
  ghost predicate Passes(demand: seq<Demand>, i: nat, capacity: real, start: Time, end: Time)
    requires i < |demand|
  {
    SumIn(demand[..i + 1], start, end) > capacity
  }

  /** A week's replay says how much of the limit its demand used and when that first passed it. */
  ghost predicate IsWeek(w: WeeklyReplay, demand: seq<Demand>, capacity: real, start: Time)
    requires capacity > 0.0
  {
    && w.start == start && w.end == start + WEEK
    && w.peakPercent == Percent(SumIn(demand, start, start + WEEK), capacity)
    && IsHit(demand, |demand|, capacity, start, start + WEEK, w.hitAt)
  }

  /** The points show the use in the week so far, at every moment of it. */
  ghost predicate ShowsWeek(points: seq<SeriesPoint>, demand: seq<Demand>, capacity: real, start: Time)
    requires capacity > 0.0
  {
    forall t :: start <= t < start + WEEK ==> UseAt(points, t) == Percent(SumIn(demand, start, t + 1), capacity)
  }

  /** A week's points lie in it, the first at its start. */
  ghost predicate InWeek(points: seq<SeriesPoint>, start: Time) {
    && Chronological(points) && points != [] && points[0].at == start
    && points[|points| - 1].at < start + WEEK
  }

  /** What ReplayWeek's loop has after the first i requests. */
  ghost predicate WeekSoFar(demand: seq<Demand>, i: nat, capacity: real, start: Time, used: real, hitAt: Option<Time>,
                            points: seq<SeriesPoint>)
    requires capacity > 0.0
  {
    && i <= |demand| && (forall j :: 0 <= j < i ==> demand[j].at < start + WEEK)
    && used == SumIn(demand[..i], start, start + WEEK)
    && IsHit(demand, i, capacity, start, start + WEEK, hitAt)
    && InWeek(points, start)
    && (points[|points| - 1].at == start || (i > 0 && points[|points| - 1].at == demand[i - 1].at))
    && forall t :: start <= t ==> UseAt(points, t) == Percent(SumIn(demand[..i], start, t + 1), capacity)
  }

  lemma WeekOpens(demand: seq<Demand>, i: nat, capacity: real, start: Time)
    requires capacity > 0.0 && i <= |demand| && forall j :: 0 <= j < i ==> demand[j].at < start
    ensures WeekSoFar(demand, i, capacity, start, 0.0, None, [SeriesPoint(start, 0.0)])
  {
    SumInNone(demand[..i], start, start + WEEK);
    forall t | start <= t
      ensures UseAt([SeriesPoint(start, 0.0)], t) == Percent(SumIn(demand[..i], start, t + 1), capacity)
    {
      SumInNone(demand[..i], start, t + 1);
    }
  }

  lemma SumOneMore(demand: seq<Demand>, i: nat, from: Time, to: Time)
    requires i < |demand|
    ensures SumIn(demand[..i + 1], from, to) == SumIn(demand[..i], from, to) + if from <= demand[i].at < to
        then demand[i].weight else 0.0
  {
    assert demand[..i + 1][..i] == demand[..i];
  }

  /** Where the week's use first passes the capacity, once request i is in. */
  function HitAfter(hitAt: Option<Time>, used: real, capacity: real, at: Time): Option<Time> {
    if hitAt.None? && used > capacity then Some(at) else hitAt
  }

  lemma HitOneMore(demand: seq<Demand>, i: nat, capacity: real, start: Time, hitAt: Option<Time>)
    requires capacity > 0.0 && InOrder(demand) && i < |demand| && start <= demand[i].at < start + WEEK
    requires IsHit(demand, i, capacity, start, start + WEEK, hitAt)
    ensures IsHit(demand, i + 1, capacity, start, start + WEEK,
                  HitAfter(hitAt, SumIn(demand[..i + 1], start, start + WEEK), capacity, demand[i].at))
  {
    var now := HitAfter(hitAt, SumIn(demand[..i + 1], start, start + WEEK), capacity, demand[i].at);
    hide SumIn;
    if hitAt.Some? {
      var k :| 0 <= k < i && demand[k].at == hitAt.value && Passes(demand, k, capacity, start, start + WEEK);
      assert demand[k].at <= demand[i].at;
    } else if now.Some? {
      assert Passes(demand, i, capacity, start, start + WEEK);
      forall j | 0 <= j < i + 1 && demand[j].at < now.value ensures !Passes(demand, j, capacity, start, start + WEEK) {
        if demand[j].at < start {
          NoneYet(demand, j, capacity, start);
        }
      }
    }
  }

  lemma NoneYet(demand: seq<Demand>, j: nat, capacity: real, start: Time)
    requires capacity > 0.0 && InOrder(demand) && j < |demand| && demand[j].at < start
    ensures !Passes(demand, j, capacity, start, start + WEEK)
  {
    SumInNone(demand[..j + 1], start, start + WEEK);
  }

  lemma PointsOneMore(demand: seq<Demand>, i: nat, capacity: real, start: Time, points: seq<SeriesPoint>, t: Time)
    requires capacity > 0.0 && InOrder(demand) && i < |demand| && start <= demand[i].at < start + WEEK && start <= t
    requires UseAt(points, t) == Percent(SumIn(demand[..i], start, t + 1), capacity)
    ensures var p := SeriesPoint(demand[i].at, Percent(SumIn(demand[..i + 1], start, start + WEEK), capacity));
            UseAt(points + [p], t) == Percent(SumIn(demand[..i + 1], start, t + 1), capacity)
  {
    var at := demand[i].at;
    UseAtOneMore(points, SeriesPoint(at, Percent(SumIn(demand[..i + 1], start, start + WEEK), capacity)), t);
    SumOneMore(demand, i, start, t + 1);
    hide SumIn, UseAt, Percent;
    if at <= t {
      SumInSplitsAt(demand[..i + 1], start, at + 1, t + 1);
      SumInSplitsAt(demand[..i + 1], start, at + 1, start + WEEK);
    }
  }

  lemma WeekOneMore(demand: seq<Demand>, i: nat, capacity: real, start: Time, used: real, hitAt: Option<Time>,
                    points: seq<SeriesPoint>)
    requires capacity > 0.0 && InOrder(demand) && WeekSoFar(demand, i, capacity, start, used, hitAt, points)
    requires i < |demand| && start <= demand[i].at < start + WEEK
    ensures var used' := used + demand[i].weight;
            WeekSoFar(demand, i + 1, capacity, start, used', HitAfter(hitAt, used', capacity, demand[i].at),
                      points + [SeriesPoint(demand[i].at, Percent(used', capacity))])
  {
    var at := demand[i].at;
    var p := SeriesPoint(at, Percent(used + demand[i].weight, capacity));
    SumOneMore(demand, i, start, start + WEEK);
    HitOneMore(demand, i, capacity, start, hitAt);
    assert i > 0 ==> demand[i - 1].at <= at;
    ChronologicalSnoc(points, p);
    hide InOrder, Chronological, SumIn, UseAt, IsHit, Percent, HitAfter;
    assert InWeek(points + [p], start);
    forall t | start <= t ensures UseAt(points + [p], t) == Percent(SumIn(demand[..i + 1], start, t + 1), capacity) {
      PointsOneMore(demand, i, capacity, start, points, t);
    }
  }

  lemma WeekCloses(demand: seq<Demand>, i: nat, capacity: real, start: Time, used: real, hitAt: Option<Time>,
                   points: seq<SeriesPoint>)
    requires capacity > 0.0 && InOrder(demand) && WeekSoFar(demand, i, capacity, start, used, hitAt, points)
    requires i < |demand| ==> start + WEEK <= demand[i].at
    ensures IsWeek(WeeklyReplay(start, start + WEEK, Percent(used, capacity), hitAt), demand, capacity, start)
    ensures ShowsWeek(points, demand, capacity, start)
  {
    hide SumIn, Percent, UseAt, Chronological;
    RestIsLater(demand, i, start, start + WEEK);
    forall t | start <= t < start + WEEK ensures UseAt(points, t) == Percent(SumIn(demand, start, t + 1), capacity) {
      RestIsLater(demand, i, start, t + 1);
    }
  }

  /** Every request adds to the use. */
  ghost predicate Rising(demand: seq<Demand>) {
    forall i :: 0 <= i < |demand| ==> demand[i].weight > 0.0
  }

  /** The week's points end at the use so far, and only rise when every request adds to it. */
  ghost predicate RisesTo(points: seq<SeriesPoint>, demand: seq<Demand>, used: real, capacity: real)
    requires capacity > 0.0
  {
    && points != [] && points[|points| - 1].percent == Percent(used, capacity)
    && (Rising(demand) ==> Falls(points, |points|) == 0)
  }

  lemma RisesOneMore(points: seq<SeriesPoint>, demand: seq<Demand>, i: nat, used: real, capacity: real)
    requires capacity > 0.0 && i < |demand| && RisesTo(points, demand, used, capacity)
    ensures var used' := used + demand[i].weight;
            RisesTo(points + [SeriesPoint(demand[i].at, Percent(used', capacity))], demand, used', capacity)
  {
    if Rising(demand) {
      PercentRises(used, used + demand[i].weight, capacity);
    }
    hide Percent, Falls;
    FallsOneMore(points, SeriesPoint(demand[i].at, Percent(used + demand[i].weight, capacity)));
  }

  lemma RisesFromNothing(demand: seq<Demand>, start: Time, capacity: real)
    requires capacity > 0.0
    ensures RisesTo([SeriesPoint(start, 0.0)], demand, 0.0, capacity)
  {
    PercentOfNone(capacity);
    hide Percent;
  }

  /** The loop over one week's demand. */
  method ReplayWeek(demand: seq<Demand>, capacity: real, start: Time) returns (w: WeeklyReplay,
                    points: seq<SeriesPoint>)
    requires capacity > 0.0 && InOrder(demand)
    ensures IsWeek(w, demand, capacity, start)
    ensures InWeek(points, start) && ShowsWeek(points, demand, capacity, start)
    ensures Rising(demand) ==> Falls(points, |points|) == 0
  {
    hide Rising, RisesTo, IsHit, SumIn, Percent, UseAt, ShowsWeek, IsWeek;
    var i := Search(demand, start);
    var used, hitAt := 0.0, None;
    points := [SeriesPoint(start, 0.0)];
    WeekOpens(demand, i, capacity, start);
    RisesFromNothing(demand, start, capacity);
    while i < |demand| && demand[i].at < start + WEEK
      invariant WeekSoFar(demand, i, capacity, start, used, hitAt, points)
      invariant forall j :: i <= j < |demand| ==> start <= demand[j].at
      invariant RisesTo(points, demand, used, capacity)
    {
      WeekOneMore(demand, i, capacity, start, used, hitAt, points);
      RisesOneMore(points, demand, i, used, capacity);
      hide InOrder, WeekSoFar;
      used := used + demand[i].weight;
      points := points + [SeriesPoint(demand[i].at, Percent(used, capacity))];
      if hitAt.None? && used > capacity {
        hitAt := Some(demand[i].at);
      }
      i := i + 1;
    }
    WeekCloses(demand, i, capacity, start, used, hitAt, points);
    assert Rising(demand) ==> Falls(points, |points|) == 0 by {
      RisenHas(points, demand, used, capacity);
    }
    w := WeeklyReplay(start, start + WEEK, Percent(used, capacity), hitAt);
  }

  lemma RisenHas(points: seq<SeriesPoint>, demand: seq<Demand>, used: real, capacity: real)
    requires capacity > 0.0 && RisesTo(points, demand, used, capacity)
    ensures Rising(demand) ==> Falls(points, |points|) == 0
  {
  }

  // ---------------------------------------------------------------- all weeks

  /** The use of the weekly limit at t: what the demand of t's week has used of it by then. */
  function WeekUse(demand: seq<Demand>, capacity: real, anchor: Time, t: Time): real
    requires capacity > 0.0
  {
    Percent(SumIn(demand, WeekStart(anchor, t), t + 1), capacity)
  }

  ghost predicate AreWeeks(weeks: seq<WeeklyReplay>, demand: seq<Demand>, capacity: real, starts: seq<Time>)
    requires capacity > 0.0
  {
    |weeks| == |starts| && forall i :: 0 <= i < |weeks| ==> IsWeek(weeks[i], demand, capacity, starts[i])
  }

  /** The raw points show the use from first until until. */
  ghost predicate ShowsWeeks(raw: seq<SeriesPoint>, demand: seq<Demand>, capacity: real, anchor: Time, first: Time,
                             until: Time)
    requires capacity > 0.0
  {
    && Chronological(raw) && (raw != [] ==> raw[|raw| - 1].at < until)
    && forall t :: first <= t < until ==> UseAt(raw, t) == WeekUse(demand, capacity, anchor, t)
  }

  /** The series is thinned from one that shows the use at every moment of [from, to). */
  ghost predicate IsWeeklySeries(series: seq<SeriesPoint>, demand: seq<Demand>, capacity: real, anchor: Time,
                                 from: Time, to: Time)
    requires capacity > 0.0
  {
    exists clipped: seq<SeriesPoint> :: Chronological(clipped) && (forall p :: p in clipped ==> from <= p.at < to)
        && series == Thinned(clipped)
      && forall t :: from <= t < to ==> UseAt(clipped, t) == WeekUse(demand, capacity, anchor, t)
  }

  lemma ShowsOneMore(raw: seq<SeriesPoint>, points: seq<SeriesPoint>, demand: seq<Demand>, capacity: real, anchor: Time,
                     first: Time, start: Time)
    requires capacity > 0.0 && Aligned(anchor, start) && ShowsWeeks(raw, demand, capacity, anchor, first, start)
    requires InWeek(points, start) && ShowsWeek(points, demand, capacity, start)
    ensures ShowsWeeks(raw + points, demand, capacity, anchor, first, start + WEEK)
  {
    ChronologicalConcat(raw, points);
    hide Chronological, UseAt, Percent, SumIn, Aligned, WeekStart;
    forall t | first <= t < start + WEEK ensures UseAt(raw + points, t) == WeekUse(demand, capacity, anchor, t) {
      UseAtConcat(raw, points, t);
      if t >= start {
        WeekStartUnique(anchor, start, t);
      }
    }
  }

  /** ReplayWeeklySeries. The demand is in time order, as the source demands of its callers. */
  method ReplayWeekly(demand: seq<Demand>, capacity: real, anchor: Time, from: Time, to: Time)
    returns (weeks: seq<WeeklyReplay>, series: seq<SeriesPoint>)
    requires InOrder(demand)
    ensures capacity <= 0.0 || to <= from ==> weeks == [] && series == []
    ensures capacity > 0.0 && from < to ==> AreWeeks(weeks, demand, capacity, Starts(anchor, from, to))
                                            && IsWeeklySeries(series, demand, capacity, anchor, from, to)
    ensures Rising(demand) && to - from <= 997 * WEEK ==> |series| <= MAX_POINTS
  {
    if capacity <= 0.0 || to <= from {
      return [], [];
    }
    var steps := Quotient(from - anchor, WEEK);
    if Remainder(from - anchor, WEEK) < 0 {
      steps := steps - 1;
    }
    var end := anchor + (steps + 1) * WEEK;
    FirstWeek(anchor, from, steps);
    hide Quotient, Remainder, InOrder, Rising, Falls;
    var raw: seq<SeriesPoint>;
    ghost var until;
    weeks, raw, until := ReplayWeeks(demand, capacity, anchor, end - WEEK, to);
    AllStarts(anchor, from, to, |weeks|);
    FewWeeks(anchor, from, to, |weeks|);
    hide IsWeek, ShowsWeeks, Reset, Aligned, Starts, WeekStart, IsWeeklySeries;
    series := DrawWeeks(raw, demand, capacity, anchor, from, to, until);
  }

  /** The loop over the weeks from the one that starts at start. */
  method ReplayWeeks(demand: seq<Demand>, capacity: real, ghost anchor: Time, start: Time, to: Time)
    returns (weeks: seq<WeeklyReplay>, raw: seq<SeriesPoint>, ghost until: Time)
    requires capacity > 0.0 && InOrder(demand) && Aligned(anchor, start)
    ensures to <= until == Reset(start, |weeks|) && ShowsWeeks(raw, demand, capacity, anchor, start, until)
    ensures forall i :: 0 <= i < |weeks| ==>
              Reset(start, i) < to && IsWeek(weeks[i], demand, capacity, Reset(start, i))
    ensures Rising(demand) ==> Falls(raw, |raw|) <= |weeks|
  {
    weeks, raw := [], [];
    var end := start + WEEK;
    NoneShown(demand, capacity, anchor, start);
    hide Percent, SumIn, UseAt, InOrder, Falls, Rising, IsWeek, ShowsWeeks, ShowsWeek, InWeek;
    while end - WEEK < to
      invariant end - WEEK == Reset(start, |weeks|) && Aligned(anchor, end - WEEK)
      invariant forall i :: 0 <= i < |weeks| ==>
                  Reset(start, i) < to && IsWeek(weeks[i], demand, capacity, Reset(start, i))
      invariant ShowsWeeks(raw, demand, capacity, anchor, start, end - WEEK)
      invariant Rising(demand) ==> Falls(raw, |raw|) <= |weeks|
      decreases if end - WEEK < to then to - (end - WEEK) else 0
    {
      var w, points := ReplayWeek(demand, capacity, end - WEEK);
      ShowsOneMore(raw, points, demand, capacity, anchor, start, end - WEEK);
      NextWeek(anchor, start, |weeks|);
      FallsConcat(raw, points);
      hide Aligned, Reset;
      raw := raw + points;
      weeks := weeks + [w];
      end := end + WEEK;
    }
    until := end - WEEK;
  }

  lemma NoneShown(demand: seq<Demand>, capacity: real, anchor: Time, start: Time)
    requires capacity > 0.0
    ensures ShowsWeeks([], demand, capacity, anchor, start, start) && Falls([], 0) == 0
  {
  }

  /** The raw points up to until cut to the period and thinned. */
  method DrawWeeks(raw: seq<SeriesPoint>, ghost demand: seq<Demand>, ghost capacity: real, ghost anchor: Time,
                   from: Time, to: Time, ghost until: Time)
    returns (series: seq<SeriesPoint>)
    requires capacity > 0.0 && from < to <= until
    requires ShowsWeeks(raw, demand, capacity, anchor, WeekStart(anchor, from), until)
    ensures IsWeeklySeries(series, demand, capacity, anchor, from, to)
    ensures Falls(raw, |raw|) < 1000 ==> |series| <= MAX_POINTS
  {
    hide WeekUse, UseAt, Thinned, Falls, Chronological;
    assert WeekStart(anchor, from) <= from;
    hide WeekStart;
    var clipped := ClipSeries(raw, from, to);
    assert forall t :: from <= t < to ==> UseAt(clipped, t) == WeekUse(demand, capacity, anchor, t);
    series := ThinSeries(clipped);
    if Falls(raw, |raw|) < 1000 {
      FewFallsFit(clipped);
    }
  }

  lemma FewWeeks(anchor: Time, from: Time, to: Time, n: nat)
    requires forall i :: 0 <= i < n ==> Reset(WeekStart(anchor, from), i) < to
    ensures to - from <= 997 * WEEK ==> n < 1000
  {
    assert WeekStart(anchor, from) > from - WEEK;
    hide WeekStart;
    if n > 0 {
      assert Reset(WeekStart(anchor, from), n - 1) < to;
    }
  }

  /** Truncating division, corrected to the floor, finds the week from lies in. */
  lemma FirstWeek(anchor: Time, from: Time, steps: int)
    requires steps == Quotient(from - anchor, WEEK) - if Remainder(from - anchor, WEEK) < 0 then 1 else 0
    ensures anchor + (steps + 1) * WEEK - WEEK == WeekStart(anchor, from)
  {
  }

  lemma NextWeek(anchor: Time, first: Time, n: nat)
    requires Aligned(anchor, Reset(first, n))
    ensures Reset(first, n) + WEEK == Reset(first, n + 1) && Aligned(anchor, Reset(first, n + 1))
  {
    var k :| Reset(first, n) == Reset(anchor, k);
    assert Reset(first, n + 1) == Reset(anchor, k + 1);
  }

  lemma AllStarts(anchor: Time, from: Time, to: Time, n: nat)
    requires (forall i :: 0 <= i < n ==> Reset(WeekStart(anchor, from), i) < to)
        && to <= Reset(WeekStart(anchor, from), n)
    ensures |Starts(anchor, from, to)| == n
    ensures forall i :: 0 <= i < n ==> Starts(anchor, from, to)[i] == Reset(WeekStart(anchor, from), i)
  {
    var starts := Starts(anchor, from, to);
    hide WeekStart, Reset, StartsFrom;
  }

  // ---------------------------------------------------------- what weeks mean

  /** What the weeks with these starts use together. */
  function UseOfWeeks(demand: seq<Demand>, starts: seq<Time>): real {
    if starts == [] then 0.0
    else
      var start := starts[|starts| - 1];
      UseOfWeeks(demand, starts[..|starts| - 1]) + SumIn(demand, start, start + WEEK)
  }

  /** Every request between the first week's start and the last one's end is
      counted in one week, once. */
  lemma {:induction false} EachRequestOnce(demand: seq<Demand>, first: Time, starts: seq<Time>)
    requires forall i :: 0 <= i < |starts| ==> starts[i] == Reset(first, i)
    ensures UseOfWeeks(demand, starts) == SumIn(demand, first, Reset(first, |starts|))
  {
    if starts == [] {
      SumInNone(demand, first, first);
    } else {
      var n := |starts| - 1;
      EachRequestOnce(demand, first, starts[..n]);
      ResetOfReset(first, n, n + 1);
      ResetOfReset(first, 0, n);
      SumInSplits(demand, first, Reset(first, n), Reset(first, n + 1));
    }
  }

  /** The weeks of a replay count each request from the first week's start to
      the last one's end exactly once, and so every request of [from, to). */
  lemma WeeksCountOnce(demand: seq<Demand>, anchor: Time, from: Time, to: Time)
    requires from < to
    ensures var starts := Starts(anchor, from, to);
            starts != [] && starts[0] <= from && to <= starts[|starts| - 1] + WEEK
            && UseOfWeeks(demand, starts) == SumIn(demand, starts[0], starts[|starts| - 1] + WEEK)
  {
    var first, starts := WeekStart(anchor, from), Starts(anchor, from, to);
    StartsExactly(anchor, from, to, first);
    EachRequestOnce(demand, first, starts);
    ResetOfReset(first, |starts| - 1, |starts|);
    ResetOfReset(first, 0, 0);
    hide UseOfWeeks, SumIn, Starts, StartsFrom, WeekStart;
    assert starts[0] == Reset(first, 0);
    assert starts[|starts| - 1] == Reset(first, |starts| - 1);
  }

  ghost predicate NonNegative(demand: seq<Demand>) {
    forall d :: d in demand ==> d.weight >= 0.0
  }

  /** When the first n requests pass the capacity together, one of them is the first to. */
  lemma {:induction false} SomePasses(demand: seq<Demand>, n: nat, capacity: real, start: Time,
                                      end: Time) returns (i: nat)
    requires capacity > 0.0 && n <= |demand| && SumIn(demand[..n], start, end) > capacity
    ensures i < n && start <= demand[i].at < end && Passes(demand, i, capacity, start, end)
  {
    assert n > 0;
    SumOneMore(demand, n - 1, start, end);
    if start <= demand[n - 1].at < end {
      i := n - 1;
    } else {
      i := SomePasses(demand, n - 1, capacity, start, end);
    }
  }

  lemma PassesStays(demand: seq<Demand>, i: nat, capacity: real, start: Time, end: Time)
    requires NonNegative(demand) && i < |demand| && Passes(demand, i, capacity, start, end) && start <= end
    ensures SumIn(demand, start, end) > capacity
  {
    assert demand == demand[..i + 1] + demand[i + 1..];
    SumInConcat(demand[..i + 1], demand[i + 1..], start, end);
    SumInNonNegative(demand[i + 1..], start, end, end);
  }

  /** A week reads over 100% exactly when it names the moment it was hit. */
  lemma OverIffHit(w: WeeklyReplay, demand: seq<Demand>, capacity: real, start: Time)
    requires capacity > 0.0 && NonNegative(demand) && IsWeek(w, demand, capacity, start)
    ensures w.peakPercent > 100.0 <==> w.hitAt.Some?
  {
    var sum := SumIn(demand, start, start + WEEK);
    PercentOver(sum, capacity);
    assert demand[..|demand|] == demand;
    if w.hitAt.Some? {
      var i :| 0 <= i < |demand| && demand[i].at == w.hitAt.value && Passes(demand, i, capacity, start, start + WEEK);
      PassesStays(demand, i, capacity, start, start + WEEK);
    } else if sum > capacity {
      var i := SomePasses(demand, |demand|, capacity, start, start + WEEK);
    }
  }

  // ---------------------------------------------------------- separate limits

  /** The earlier of two hits, if there is one. */
  function Earlier(a: Option<Time>, b: Option<Time>): Option<Time> {
    if a.None? || (b.Some? && b.value < a.value) then b else a
  }

  /** Week i at its worst: the highest use and the earliest hit of all replays. */
  ghost predicate IsWorst(w: WeeklyReplay, replays: seq<seq<WeeklyReplay>>, i: nat)
    requires forall k :: 0 <= k < |replays| ==> i < |replays[k]|
  {
    && (forall k :: 0 <= k < |replays| ==> replays[k][i].peakPercent <= w.peakPercent)
    && (exists k :: 0 <= k < |replays| && replays[k][i].peakPercent == w.peakPercent)
    && (forall k :: 0 <= k < |replays| ==> replays[k][i].hitAt.Some? ==>
          w.hitAt.Some? && w.hitAt.value <= replays[k][i].hitAt.value)
    && (exists k :: 0 <= k < |replays| && replays[k][i].hitAt == w.hitAt)
    && w.start == replays[0][i].start && w.end == replays[0][i].end
  }

  function WorseOf(w: WeeklyReplay, r: WeeklyReplay): WeeklyReplay {
    w.(peakPercent := MaxReal(w.peakPercent, r.peakPercent), hitAt := Earlier(w.hitAt, r.hitAt))
  }

  lemma WorstOneMore(w: WeeklyReplay, replays: seq<seq<WeeklyReplay>>, n: nat, i: nat)
    requires 0 < n < |replays| && (forall k :: 0 <= k < |replays| ==> i < |replays[k]|) && IsWorst(w, replays[..n], i)
    ensures IsWorst(WorseOf(w, replays[n][i]), replays[..n + 1], i)
  {
    var all, w' := replays[..n + 1], WorseOf(w, replays[n][i]);
    assert all[n] == replays[n];
    var p :| 0 <= p < n && replays[..n][p][i].peakPercent == w.peakPercent;
    var h :| 0 <= h < n && replays[..n][h][i].hitAt == w.hitAt;
    assert all[p][i].peakPercent == w.peakPercent && all[h][i].hitAt == w.hitAt;
    forall k | 0 <= k < |all| ensures all[k][i].peakPercent <= w'.peakPercent {
      assert k < n ==> all[k] == replays[..n][k];
    }
    forall k | 0 <= k < |all| && all[k][i].hitAt.Some?
      ensures w'.hitAt.Some? && w'.hitAt.value <= all[k][i].hitAt.value
    {
      assert k < n ==> all[k] == replays[..n][k];
    }
  }

  /** Combines the replays of separate limits over the same weeks. */
  method WorstWeekly(replays: seq<seq<WeeklyReplay>>) returns (out: seq<WeeklyReplay>)
    requires forall k :: 0 <= k < |replays| ==> |replays[k]| == |replays[0]|
    ensures |out| == if replays == [] then 0 else |replays[0]|
    ensures forall i :: 0 <= i < |out| ==> IsWorst(out[i], replays, i)
  {
    out := [];
    for n := 0 to |replays|
      invariant |out| == if n == 0 then 0 else |replays[0]|
      invariant n > 0 ==> forall i :: 0 <= i < |out| ==> IsWorst(out[i], replays[..n], i)
    {
      var r := replays[n];
      if out == [] {
        out := r;
        continue;
      }
      ghost var before := out;
      for i := 0 to |out|
        invariant |out| == |before|
        invariant forall k :: i <= k < |out| ==> out[k] == before[k]
        invariant forall k :: 0 <= k < i ==> out[k] == WorseOf(before[k], r[k])
      {
        out := out[i := out[i].(peakPercent := MaxReal(out[i].peakPercent, r[i].peakPercent))];
        if out[i].hitAt.None? || (r[i].hitAt.Some? && r[i].hitAt.value < out[i].hitAt.value) {
          out := out[i := out[i].(hitAt := r[i].hitAt)];
        }
      }
      forall i | 0 <= i < |out| ensures IsWorst(out[i], replays[..n + 1], i) {
        WorstOneMore(before[i], replays, n, i);
      }
    }
    assert replays[..|replays|] == replays;
  }

  /** Members' own limits replayed over one period: each replay has the same
      weeks, so the combination never reads past one, and a week of it is over
      100% exactly when it names a hit. */
  method WorstOfMembers(demands: seq<seq<Demand>>, capacity: real, anchor: Time, from: Time, to: Time)
    returns (out: seq<WeeklyReplay>)
    requires forall k :: 0 <= k < |demands| ==> InOrder(demands[k]) && NonNegative(demands[k])
    ensures demands == [] || capacity <= 0.0 || to <= from ==> out == []
    ensures demands != [] && capacity > 0.0 && from < to ==>
      |out| == |Starts(anchor, from, to)| && forall i :: 0 <= i < |out| ==>
        out[i].start == Starts(anchor, from, to)[i] && (out[i].peakPercent > 100.0 <==> out[i].hitAt.Some?)
  {
    var replays := ReplayMembers(demands, capacity, anchor, from, to);
    ghost var starts := Starts(anchor, from, to);
    SameWeeks(replays, demands, capacity, anchor, from, to);
    out := WorstWeekly(replays);
    hide InOrder, NonNegative, Starts, AreWeeks, IsWorst;
    if capacity > 0.0 && from < to {
      forall i | 0 <= i < |out|
        ensures out[i].start == starts[i] && (out[i].peakPercent > 100.0 <==> out[i].hitAt.Some?)
      {
        WorstIsHit(out[i], replays, demands, capacity, starts, i);
      }
    }
  }

  /** Each member's own weeks. */
  method ReplayMembers(demands: seq<seq<Demand>>, capacity: real, anchor: Time, from: Time, to: Time)
    returns (replays: seq<seq<WeeklyReplay>>)
    requires forall k :: 0 <= k < |demands| ==> InOrder(demands[k])
    ensures |replays| == |demands|
    ensures capacity <= 0.0 || to <= from ==> forall k :: 0 <= k < |demands| ==> replays[k] == []
    ensures capacity > 0.0 && from < to ==>
              forall k :: 0 <= k < |demands| ==> AreWeeks(replays[k], demands[k], capacity, Starts(anchor, from, to))
  {
    hide Starts, AreWeeks, InOrder, Rising, IsWeeklySeries;
    replays := [];
    for n := 0 to |demands|
      invariant |replays| == n
      invariant capacity <= 0.0 || to <= from ==> forall k :: 0 <= k < n ==> replays[k] == []
      invariant capacity > 0.0 && from < to ==>
                  forall k :: 0 <= k < n ==> AreWeeks(replays[k], demands[k], capacity, Starts(anchor, from, to))
    {
      var weeks, series := ReplayWeekly(demands[n], capacity, anchor, from, to);
      replays := replays + [weeks];
    }
  }

  lemma SameWeeks(replays: seq<seq<WeeklyReplay>>, demands: seq<seq<Demand>>, capacity: real, anchor: Time, from: Time,
                  to: Time)
    requires |replays| == |demands|
    requires capacity <= 0.0 || to <= from ==> forall k :: 0 <= k < |demands| ==> replays[k] == []
    requires capacity > 0.0 && from < to ==>
               forall k :: 0 <= k < |demands| ==> AreWeeks(replays[k], demands[k], capacity, Starts(anchor, from, to))
    ensures forall k :: 0 <= k < |replays| ==>
              |replays[k]| == if capacity > 0.0 && from < to then |Starts(anchor, from, to)| else 0
  {
    hide Starts, IsWeek;
  }

  lemma WorstIsHit(w: WeeklyReplay, replays: seq<seq<WeeklyReplay>>, demands: seq<seq<Demand>>, capacity: real,
                   starts: seq<Time>, i: nat)
    requires capacity > 0.0 && |replays| == |demands| > 0 && i < |starts|
    requires forall k :: 0 <= k < |demands| ==>
        NonNegative(demands[k]) && AreWeeks(replays[k], demands[k], capacity, starts)
    requires forall k :: 0 <= k < |replays| ==> i < |replays[k]|
    requires IsWorst(w, replays, i)
    ensures w.start == starts[i] && (w.peakPercent > 100.0 <==> w.hitAt.Some?)
  {
    hide NonNegative;
    forall k | 0 <= k < |replays| ensures replays[k][i].peakPercent > 100.0 <==> replays[k][i].hitAt.Some? {
      assert AreWeeks(replays[k], demands[k], capacity, starts);
      OverIffHit(replays[k][i], demands[k], capacity, starts[i]);
    }
    assert AreWeeks(replays[0], demands[0], capacity, starts);
    hide IsHit;
    assert w.start == starts[i];
  }
}
