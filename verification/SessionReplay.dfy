/** Recorded demand replayed against a limit per session:
    ReplaySessionsSeries of internal/quota/capacity.go. */
module SessionReplay {
  import opened Records
  import opened Sorting
  import opened Rolling
  import opened Series
  import opened Thinning

  datatype SessionReplay = SessionReplay(
    windows: nat, hitWindows: nat, firstHit: Option<Time>, peakPercent: real, total: real, blocked: real)

  const NOTHING := SessionReplay(0, 0, None, 0.0, 0.0, 0.0)

  /** A limit per session, and the span in which opening sessions count. */
  datatype Limit = Limit(capacity: real, window: Time, from: Time, to: Time)

  function DemandTime(d: Demand): int { d.at }

  // ----------------------------------------------------------------- sessions

  function Positive(ds: seq<Demand>): seq<Demand> {
    if ds == [] then []
    else Positive(ds[..|ds| - 1]) + (if ds[|ds| - 1].weight > 0.0 then [ds[|ds| - 1]] else [])
  }

  lemma PositiveLast(ds: seq<Demand>)
    requires ds != []
    ensures var n := |ds| - 1;
            Positive(ds) == if ds[n].weight > 0.0 then Positive(ds[..n]) + [ds[n]] else Positive(ds[..n])
  {
  }

  /** Exactly the requests that carry a weight, each as often as before. */
  lemma {:induction false} PositiveKeeps(ds: seq<Demand>, d: Demand)
    ensures multiset(Positive(ds))[d] == if d.weight > 0.0 then multiset(ds)[d] else 0
  {
    if ds != [] {
      var n := |ds| - 1;
      PositiveKeeps(ds[..n], d);
      assert ds == ds[..n] + [ds[n]];
      PositiveLast(ds);
      hide Positive;
      assert multiset(ds)[d] == multiset(ds[..n])[d] + if ds[n] == d then 1 else 0;
    }
  }

  ghost predicate Ordered(ds: seq<Demand>) {
    && (forall i, j :: 0 <= i < j < |ds| ==> ds[i].at <= ds[j].at)
    && (forall i :: 0 <= i < |ds| ==> ds[i].weight > 0.0)
  }

  predicate NonEmpty(sessions: seq<seq<Demand>>) {
    forall i :: 0 <= i < |sessions| ==> sessions[i] != []
  }

  /** How many requests from i on come before end. */
  function RunLength(ds: seq<Demand>, end: Time, i: nat): (n: nat)
    requires i <= |ds|
    ensures i <= n <= |ds|
    ensures forall k :: i <= k < n ==> ds[k].at < end
    ensures n < |ds| ==> ds[n].at >= end
    decreases |ds| - i
  {
    if i < |ds| && ds[i].at < end then RunLength(ds, end, i + 1) else i
  }

  /** What a session is: the demand splits into maximal runs, each from its
      first request up to, but not including, a window after it. */
  function Split(ds: seq<Demand>, window: Time): (sessions: seq<seq<Demand>>)
    ensures NonEmpty(sessions)
  {
    if ds == [] then []
    else
      var n := RunLength(ds, ds[0].at + window, 1);
      [ds[..n]] + Split(ds[n..], window)
  }

  /** One more request joins the last session, or opens the next one when that has ended. */
  function Append(sessions: seq<seq<Demand>>, d: Demand, window: Time): seq<seq<Demand>>
    requires NonEmpty(sessions)
  {
    var m := |sessions| - 1;
    if sessions == [] || d.at >= sessions[m][0].at + window then sessions + [[d]]
    else sessions[..m] + [sessions[m] + [d]]
  }

  lemma OrderedTail(ds: seq<Demand>, n: nat)
    requires Ordered(ds) && n <= |ds|
    ensures Ordered(ds[n..]) && Ordered(ds[..n])
  {
  }

  lemma {:induction false} SplitOneMore(ds: seq<Demand>, d: Demand, window: Time)
    requires Ordered(ds + [d])
    ensures Split(ds + [d], window) == Append(Split(ds, window), d, window)
  {
    if ds == [] {
      assert [d][1..] == [] && [d][..1] == [d] && [] + [d] == [d];
    } else {
      hide Split, Append, RunLength, Ordered;
      var n := RunLength(ds, ds[0].at + window, 1);
      if n < |ds| {
        LaterRunGrows(ds, d, window);
        OrderedRest(ds, d, n);
        SplitOneMore(ds[n..], d, window);
        SplitFirst(ds, window);
        AppendLater(ds[..n], Split(ds[n..], window), d, window);
      } else {
        OnlyRunGrows(ds, d, window);
      }
    }
  }

  lemma SliceSnoc<T>(xs: seq<T>, x: T, n: nat)
    requires n < |xs|
    ensures (xs + [x])[n..] == xs[n..] + [x] && (xs + [x])[..n] == xs[..n] && xs[n..] != []
  {
  }

  lemma OrderedRest(ds: seq<Demand>, d: Demand, n: nat)
    requires Ordered(ds + [d]) && n < |ds|
    ensures Ordered(ds[n..] + [d])
  {
    OrderedTail(ds + [d], n);
    SliceSnoc(ds, d, n);
    hide Ordered;
  }

  lemma SplitFirst(ds: seq<Demand>, window: Time)
    requires ds != []
    ensures var n := RunLength(ds, ds[0].at + window, 1);
            Split(ds, window) == [ds[..n]] + Split(ds[n..], window)
  {
    hide RunLength;
  }

  /** A request after the first run leaves it alone. */
  lemma LaterRunGrows(ds: seq<Demand>, d: Demand, window: Time)
    requires ds != [] && RunLength(ds, ds[0].at + window, 1) < |ds|
    ensures var n := RunLength(ds, ds[0].at + window, 1);
            Split(ds + [d], window) == [ds[..n]] + Split(ds[n..] + [d], window) && Split(ds[n..], window) != []
  {
    hide RunLength, Split;
    var n, all := RunLength(ds, ds[0].at + window, 1), ds + [d];
    RunLengthOneMore(ds, d, ds[0].at + window, 1);
    SplitFirst(all, window);
    SliceSnoc(ds, d, n);
    SplitFirst(ds[n..], window);
  }

  /** A request after a single run joins it, or opens the next. */
  lemma OnlyRunGrows(ds: seq<Demand>, d: Demand, window: Time)
    requires ds != [] && RunLength(ds, ds[0].at + window, 1) == |ds|
    ensures Split(ds + [d], window) == Append(Split(ds, window), d, window)
  {
    var all := ds + [d];
    RunLengthOneMore(ds, d, ds[0].at + window, 1);
    SplitWhole(ds, window);
    hide Split;
    if d.at < ds[0].at + window {
      SplitWhole(all, window);
    } else {
      assert all[..|ds|] == ds && all[|ds|..] == [d];
      SplitFirst(all, window);
      SplitWhole([d], window);
      assert [ds][..1] == [ds];
    }
  }

  lemma SplitWhole(ds: seq<Demand>, window: Time)
    requires ds != [] && RunLength(ds, ds[0].at + window, 1) == |ds|
    ensures Split(ds, window) == [ds]
  {
    assert ds[..|ds|] == ds && ds[|ds|..] == [];
  }

  lemma AppendLater(first: seq<Demand>, sessions: seq<seq<Demand>>, d: Demand, window: Time)
    requires first != [] && sessions != [] && NonEmpty(sessions)
    ensures NonEmpty([first] + sessions)
    ensures Append([first] + sessions, d, window) == [first] + Append(sessions, d, window)
  {
    var all := [first] + sessions;
    assert all[|all| - 1] == sessions[|sessions| - 1];
    assert all[..|all| - 1] == [first] + sessions[..|sessions| - 1];
  }

  lemma {:induction false} RunLengthOneMore(ds: seq<Demand>, d: Demand, end: Time, i: nat)
    requires i <= |ds|
    ensures var n := RunLength(ds, end, i);
            RunLength(ds + [d], end, i) == if n == |ds| && d.at < end then n + 1 else n
    decreases |ds| - i
  {
    if i < |ds| && ds[i].at < end {
      RunLengthOneMore(ds, d, end, i + 1);
    } else if i == |ds| {
      assert (ds + [d])[i] == d;
    }
  }

  // ------------------------------------------------------------- one session

  function Sum(ds: seq<Demand>): real {
    if ds == [] then 0.0 else Sum(ds[..|ds| - 1]) + ds[|ds| - 1].weight
  }

  /** When the session's use first passes the capacity. */
  function CrossAt(s: seq<Demand>, capacity: real): Option<Time> {
    if s == [] then None
    else
      var before := CrossAt(s[..|s| - 1], capacity);
      if before.Some? then before else if Sum(s) > capacity then Some(s[|s| - 1].at) else None
  }

  /** The demand that came after the capacity had been passed. */
  function Blocked(s: seq<Demand>, capacity: real): real {
    if s == [] then 0.0
    else
      var rest := s[..|s| - 1];
      Blocked(rest, capacity) + (if Sum(rest) > capacity then s[|s| - 1].weight else 0.0)
  }

  ghost predicate AllPositive(s: seq<Demand>) {
    forall i :: 0 <= i < |s| ==> s[i].weight > 0.0
  }

  ghost predicate AllSessionsPositive(sessions: seq<seq<Demand>>) {
    forall i :: 0 <= i < |sessions| ==> AllPositive(sessions[i])
  }

  lemma OneMore(s: seq<Demand>, d: Demand, capacity: real)
    ensures Sum(s + [d]) == Sum(s) + d.weight
    ensures Blocked(s + [d], capacity) == Blocked(s, capacity) + (if Sum(s) > capacity then d.weight else 0.0)
    ensures CrossAt(s + [d], capacity) == if CrossAt(s, capacity).Some? then CrossAt(s, capacity)
                                          else if Sum(s) + d.weight > capacity then Some(d.at) else None
  {
    assert (s + [d])[..|s|] == s;
  }

  /** k is the request that takes the session past the capacity. */
  ghost predicate Crosses(s: seq<Demand>, capacity: real, k: nat) {
    k < |s| && Sum(s[..k]) <= capacity < Sum(s[..k + 1])
  }

  /** Request k is the hit, and all of the session after it is blocked. */
  ghost predicate HitAt(s: seq<Demand>, capacity: real, k: nat) {
    Crosses(s, capacity, k) && CrossAt(s, capacity) == Some(s[k].at) && Blocked(s, capacity) == Sum(s) - Sum(s[..k + 1])
  }

  /** A session is hit exactly when it uses more than the capacity; then some
      request crosses it, its time is the hit and the blocked demand is all of
      the session that came after it. Otherwise nothing is blocked. */
  lemma {:induction false} HitSession(s: seq<Demand>, capacity: real)
    requires AllPositive(s) && capacity >= 0.0
    ensures CrossAt(s, capacity).Some? <==> Sum(s) > capacity
    ensures Sum(s) <= capacity ==> Blocked(s, capacity) == 0.0
    ensures Sum(s) > capacity ==> exists k: nat :: HitAt(s, capacity, k)
    ensures 0.0 <= Blocked(s, capacity) <= Sum(s)
  {
    if s != [] {
      var n := |s| - 1;
      var rest := s[..n];
      HitSession(rest, capacity);
      assert s == rest + [s[n]];
      OneMore(rest, s[n], capacity);
      if Sum(rest) > capacity {
        var k: nat :| HitAt(rest, capacity, k);
        assert rest[..k] == s[..k] && rest[..k + 1] == s[..k + 1];
        hide Sum, CrossAt, Blocked;
        assert HitAt(s, capacity, k);
      } else if Sum(s) > capacity {
        assert s[..n + 1] == s;
        assert HitAt(s, capacity, n);
      }
    }
  }

  // ------------------------------------------------------------- all sessions

  predicate Counted(s: seq<Demand>, l: Limit)
    requires s != []
  {
    l.from <= s[0].at < l.to
  }

  /** What one more session adds to a replay. */
  function AddSession(r: SessionReplay, s: seq<Demand>, l: Limit): SessionReplay
    requires s != [] && l.capacity > 0.0
  {
    if !Counted(s, l) then r
    else
      SessionReplay(r.windows + 1,
                    r.hitWindows + if Sum(s) > l.capacity then 1 else 0,
                    if r.firstHit.Some? then r.firstHit else CrossAt(s, l.capacity),
                    MaxReal(r.peakPercent, Percent(Sum(s), l.capacity)),
                    r.total + Sum(s),
                    r.blocked + Blocked(s, l.capacity))
  }

  /** The replay of whole sessions. */
  function Replay(sessions: seq<seq<Demand>>, l: Limit): SessionReplay
    requires l.capacity > 0.0 && NonEmpty(sessions)
  {
    if sessions == [] then NOTHING
    else
      AddSession(Replay(sessions[..|sessions| - 1], l), sessions[|sessions| - 1], l)
  }

  /** What a replay always says: it blocks no more than there was, and its
      peak passes 100 exactly when a session was hit, exactly when there is a
      first hit. */
  ghost predicate Consistent(r: SessionReplay) {
    && 0.0 <= r.blocked <= r.total && r.hitWindows <= r.windows && r.peakPercent >= 0.0
    && (r.peakPercent > 100.0 <==> r.hitWindows > 0)
    && (r.firstHit.Some? <==> r.hitWindows > 0)
  }

  lemma {:induction false} ReplayConsistent(sessions: seq<seq<Demand>>, l: Limit)
    requires l.capacity > 0.0 && NonEmpty(sessions) && AllSessionsPositive(sessions)
    ensures Consistent(Replay(sessions, l))
  {
    if sessions != [] {
      var s := sessions[|sessions| - 1];
      ReplayConsistent(sessions[..|sessions| - 1], l);
      HitSession(s, l.capacity);
      PercentOver(Sum(s), l.capacity);
    }
  }

  // -------------------------------------------------------- what a replay says

  /** The sessions that open in the period. */
  function InPeriod(sessions: seq<seq<Demand>>, l: Limit): (counted: seq<seq<Demand>>)
    requires NonEmpty(sessions)
    ensures NonEmpty(counted)
  {
    if sessions == [] then []
    else
      var s := sessions[|sessions| - 1];
      InPeriod(sessions[..|sessions| - 1], l) + if l.from <= s[0].at && s[0].at < l.to then [s] else []
  }

  /** They are exactly those, in order. */
  lemma {:induction false} InPeriodIs(sessions: seq<seq<Demand>>, l: Limit) returns (at: seq<nat>)
    requires NonEmpty(sessions)
    ensures |at| == |InPeriod(sessions, l)|
    ensures forall i, j :: 0 <= i < j < |at| ==> at[i] < at[j]
    ensures forall i :: 0 <= i < |at| ==> at[i] < |sessions| && InPeriod(sessions, l)[i] == sessions[at[i]]
    ensures forall n :: 0 <= n < |sessions| ==> (l.from <= sessions[n][0].at < l.to <==> n in at)
  {
    at := [];
    if sessions != [] {
      var m := |sessions| - 1;
      var before := InPeriodIs(sessions[..m], l);
      at := before + if l.from <= sessions[m][0].at < l.to then [m] else [];
      assert forall n :: n in before ==> n in at;
    }
  }

  /** The sums of several sessions' parts. */
  function SumAll(parts: seq<real>): real {
    if parts == [] then 0.0 else SumAll(parts[..|parts| - 1]) + parts[|parts| - 1]
  }

  function Uses(sessions: seq<seq<Demand>>): (uses: seq<real>)
    ensures |uses| == |sessions| && forall i :: 0 <= i < |uses| ==> uses[i] == Sum(sessions[i])
  {
    seq(|sessions|, i requires 0 <= i < |sessions| => Sum(sessions[i]))
  }

  function Refused(sessions: seq<seq<Demand>>, capacity: real): (refused: seq<real>)
    ensures |refused| == |sessions| && forall i :: 0 <= i < |refused| ==> refused[i] == Blocked(sessions[i], capacity)
  {
    seq(|sessions|, i requires 0 <= i < |sessions| => Blocked(sessions[i], capacity))
  }

  /** The sessions that use more than the capacity, by their place. */
  ghost function Over(sessions: seq<seq<Demand>>, capacity: real): set<nat> {
    set i: nat | i < |sessions| && Sum(sessions[i]) > capacity
  }

  /** t is when the session first passed the capacity. */
  ghost predicate HitTime(s: seq<Demand>, capacity: real, t: Time) {
    exists k: nat :: Crosses(s, capacity, k) && s[k].at == t
  }

  /** The first hit is that of the first session over the capacity. */
  ghost predicate IsFirstHit(hit: Option<Time>, sessions: seq<seq<Demand>>, capacity: real) {
    match hit
    case None => forall i :: 0 <= i < |sessions| ==> Sum(sessions[i]) <= capacity
    case Some(t) =>
      exists i :: 0 <= i < |sessions| && Sum(sessions[i]) > capacity && HitTime(sessions[i], capacity, t)
                  && forall j :: 0 <= j < i ==> Sum(sessions[j]) <= capacity
  }

  /** The peak is the highest use in percent, and reached if there is a session. */
  ghost predicate IsPeakOf(peak: real, sessions: seq<seq<Demand>>, capacity: real)
    requires capacity > 0.0
  {
    && peak >= 0.0 && (forall i :: 0 <= i < |sessions| ==> Sum(sessions[i]) / capacity * 100.0 <= peak)
    && (sessions == [] ==> peak == 0.0)
    && (sessions != [] ==> exists i :: 0 <= i < |sessions| && peak == Sum(sessions[i]) / capacity * 100.0)
  }

  /** What a replay says of the sessions that open in the period: how many there
      are and how many use more than the capacity, what they use and what of it
      came after the capacity was passed, the highest use, and when the first of
      them to be hit was. */
  ghost predicate Tells(r: SessionReplay, counted: seq<seq<Demand>>, capacity: real)
    requires capacity > 0.0
  {
    && r.windows == |counted| && r.hitWindows == |Over(counted, capacity)|
    && r.total == SumAll(Uses(counted)) && r.blocked == SumAll(Refused(counted, capacity))
    && IsPeakOf(r.peakPercent, counted, capacity) && IsFirstHit(r.firstHit, counted, capacity)
  }

  lemma {:induction false} ReplayTells(sessions: seq<seq<Demand>>, l: Limit)
    requires l.capacity > 0.0 && NonEmpty(sessions) && AllSessionsPositive(sessions)
    ensures Tells(Replay(sessions, l), InPeriod(sessions, l), l.capacity)
  {
    hide Tells;
    if sessions == [] {
      NothingTold(l.capacity);
    } else {
      var m := |sessions| - 1;
      var done, s := sessions[..m], sessions[m];
      ReplayTells(done, l);
      assert AllPositive(s);
      hide AllSessionsPositive, AllPositive;
      ReplayOneMore(sessions, l);
      if l.from <= s[0].at < l.to {
        assert InPeriod(sessions, l) == InPeriod(done, l) + [s];
        OneMoreTold(Replay(done, l), InPeriod(done, l), s, l);
      } else {
        assert InPeriod(sessions, l) == InPeriod(done, l) + [] == InPeriod(done, l);
      }
    }
  }

  lemma NothingTold(capacity: real)
    requires capacity > 0.0
    ensures Tells(NOTHING, [], capacity)
  {
    assert Over([], capacity) == {};
  }

  lemma ReplayOneMore(sessions: seq<seq<Demand>>, l: Limit)
    requires l.capacity > 0.0 && NonEmpty(sessions) && sessions != []
    ensures var done, s := sessions[..|sessions| - 1], sessions[|sessions| - 1];
            Replay(sessions, l) == if l.from <= s[0].at < l.to then AddSession(Replay(done, l), s, l)
                else Replay(done, l)
  {
    hide Percent, Sum, CrossAt, Blocked;
  }

  lemma OneMoreTold(r: SessionReplay, counted: seq<seq<Demand>>, s: seq<Demand>, l: Limit)
    requires l.capacity > 0.0 && s != [] && AllPositive(s) && l.from <= s[0].at < l.to
    requires Tells(r, counted, l.capacity)
    ensures Tells(AddSession(r, s, l), counted + [s], l.capacity)
  {
    HitSession(s, l.capacity);
    OverOneMore(counted, s, l.capacity);
    SumsOneMore(counted, s, l.capacity);
    FirstHitOneMore(r.firstHit, counted, s, l.capacity);
    PeakOneMore(r.peakPercent, counted, s, l.capacity);
    hide IsPeakOf, IsFirstHit, Over, SumAll, Uses, Refused, Sum, Blocked, CrossAt, Percent, HitAt, AllPositive;
  }

  lemma OverOneMore(counted: seq<seq<Demand>>, s: seq<Demand>, capacity: real)
    ensures |Over(counted + [s], capacity)| == |Over(counted, capacity)| + if Sum(s) > capacity then 1 else 0
  {
    hide Sum;
    var all := counted + [s];
    var more: set<nat> := if Sum(s) > capacity then {|counted|} else {};
    forall i: nat ensures i in Over(all, capacity) <==> i in Over(counted, capacity) || i in more {
      assert i < |counted| ==> all[i] == counted[i];
    }
    assert Over(all, capacity) == Over(counted, capacity) + more;
    assert |counted| !in Over(counted, capacity);
    hide Over;
  }

  lemma SumsOneMore(counted: seq<seq<Demand>>, s: seq<Demand>, capacity: real)
    ensures SumAll(Uses(counted + [s])) == SumAll(Uses(counted)) + Sum(s)
    ensures SumAll(Refused(counted + [s], capacity)) == SumAll(Refused(counted, capacity)) + Blocked(s, capacity)
  {
    hide Sum, Blocked, SumAll;
    assert Uses(counted + [s]) == Uses(counted) + [Sum(s)];
    assert Refused(counted + [s], capacity) == Refused(counted, capacity) + [Blocked(s, capacity)];
    SumAllOneMore(Uses(counted), Sum(s));
    SumAllOneMore(Refused(counted, capacity), Blocked(s, capacity));
  }

  lemma SumAllOneMore(parts: seq<real>, part: real)
    ensures SumAll(parts + [part]) == SumAll(parts) + part
  {
    assert (parts + [part])[..|parts|] == parts;
  }

  lemma FirstHitOneMore(hit: Option<Time>, counted: seq<seq<Demand>>, s: seq<Demand>, capacity: real)
    requires AllPositive(s) && capacity >= 0.0 && IsFirstHit(hit, counted, capacity)
    ensures IsFirstHit(if hit.Some? then hit else CrossAt(s, capacity), counted + [s], capacity)
  {
    HitSession(s, capacity);
    hide Sum, CrossAt, Blocked, AllPositive;
    var all := counted + [s];
    assert all[|counted|] == s && forall j :: 0 <= j < |counted| ==> all[j] == counted[j];
    if hit.Some? {
      var i :| 0 <= i < |counted| && Sum(counted[i]) > capacity && HitTime(counted[i], capacity, hit.value)
               && forall j :: 0 <= j < i ==> Sum(counted[j]) <= capacity;
      hide HitTime;
      assert all[i] == counted[i] && forall j :: 0 <= j < i ==> Sum(all[j]) <= capacity;
    } else if Sum(s) > capacity {
      var k: nat :| HitAt(s, capacity, k);
      assert Crosses(s, capacity, k);
      assert HitTime(all[|counted|], capacity, s[k].at);
    }
  }

  lemma PeakOneMore(peak: real, counted: seq<seq<Demand>>, s: seq<Demand>, capacity: real)
    requires capacity > 0.0 && IsPeakOf(peak, counted, capacity) && Sum(s) >= 0.0
    ensures IsPeakOf(MaxReal(peak, Percent(Sum(s), capacity)), counted + [s], capacity)
  {
    PercentOver(Sum(s), capacity);
    hide Sum;
    var all, use := counted + [s], Percent(Sum(s), capacity);
    assert use == Sum(s) / capacity * 100.0 && use >= 0.0;
    assert all[|counted|] == s && forall j :: 0 <= j < |counted| ==> all[j] == counted[j];
    hide Percent;
    if peak < use || counted == [] {
      assert MaxReal(peak, use) == Sum(all[|counted|]) / capacity * 100.0;
    } else {
      var i :| 0 <= i < |counted| && peak == Sum(counted[i]) / capacity * 100.0;
      assert all[i] == counted[i];
    }
  }

  // ------------------------------------------------------------------- series

  function SessionPoints(s: seq<Demand>, l: Limit): seq<SeriesPoint>
    requires l.capacity > 0.0
  {
    if s == [] then []
    else SessionPoints(s[..|s| - 1], l) + [SeriesPoint(s[|s| - 1].at, Percent(Sum(s), l.capacity))]
  }

  /** A whole session's part of the series: up with each request, and to 0 at its end. */
  function SessionSeries(s: seq<Demand>, l: Limit): seq<SeriesPoint>
    requires l.capacity > 0.0 && s != []
  {
    if Counted(s, l) then SessionPoints(s, l) + [SeriesPoint(s[0].at + l.window, 0.0)] else []
  }

  function RawSeries(sessions: seq<seq<Demand>>, l: Limit): seq<SeriesPoint>
    requires l.capacity > 0.0 && NonEmpty(sessions)
  {
    if sessions == [] then []
    else
      RawSeries(sessions[..|sessions| - 1], l) + SessionSeries(sessions[|sessions| - 1], l)
  }

  // ---------------------------------------------------- what the series means

  /** Sessions in order, each shorter than the window, none opening before the last one ended. */
  ghost predicate WellSpaced(sessions: seq<seq<Demand>>, window: Time) {
    && NonEmpty(sessions)
    && (forall i :: 0 <= i < |sessions| ==> Ordered(sessions[i]) && Within(sessions[i], window))
    && (forall i, j :: 0 <= i < j < |sessions| ==> sessions[i][0].at + window <= sessions[j][0].at)
  }

  ghost predicate Within(s: seq<Demand>, window: Time)
    requires s != []
  {
    forall k :: 0 < k < |s| ==> s[k].at < s[0].at + window
  }

  /** Splitting loses and reorders nothing. */
  lemma {:induction false} SplitFlattens(ds: seq<Demand>, window: Time)
    ensures Flatten(Split(ds, window)) == ds
  {
    if ds != [] {
      hide RunLength;
      var n := RunLength(ds, ds[0].at + window, 1);
      var first, rest := ds[..n], Split(ds[n..], window);
      SplitFirst(ds, window);
      SplitFlattens(ds[n..], window);
      assert ([first] + rest)[1..] == rest && ds == first + ds[n..];
    }
  }

  /** Splitting spaces the sessions. */
  lemma {:induction false} SplitSpaced(ds: seq<Demand>, window: Time)
    requires Ordered(ds) && window >= 0
    ensures WellSpaced(Split(ds, window), window)
    ensures ds != [] ==> Split(ds, window) != [] && Split(ds, window)[0][0] == ds[0]
  {
    if ds != [] {
      hide RunLength;
      var n := RunLength(ds, ds[0].at + window, 1);
      OrderedTail(ds, n);
      FirstRun(ds, window);
      SplitFirst(ds, window);
      hide Ordered, Split, Within;
      SplitSpaced(ds[n..], window);
      SpacedCons(ds[..n], Split(ds[n..], window), window);
    }
  }

  /** The first run is shorter than a window, and what follows it is not. */
  lemma FirstRun(ds: seq<Demand>, window: Time)
    requires ds != [] && window >= 0
    ensures var n := RunLength(ds, ds[0].at + window, 1);
            ds[..n] != [] && Within(ds[..n], window) && ds[..n][0] == ds[0]
            && (n < |ds| ==> ds[n..] != [] && ds[0].at + window <= ds[n..][0].at)
  {
    hide RunLength;
  }

  lemma SpacedCons(first: seq<Demand>, rest: seq<seq<Demand>>, window: Time)
    requires first != [] && Ordered(first) && Within(first, window) && WellSpaced(rest, window) && window >= 0
    requires rest != [] ==> first[0].at + window <= rest[0][0].at
    ensures WellSpaced([first] + rest, window)
  {
    hide Ordered, Within;
    var all: seq<seq<Demand>> := [first] + rest;
    forall i: int, j: int | 0 <= i < j < |all|
        ensures all[i] != [] && all[j] != [] && all[i][0].at + window <= all[j][0].at {
      assert all[j] == rest[j - 1];
      if i > 0 {
        assert all[i] == rest[i - 1];
      } else if j > 1 {
        assert rest[0][0].at + window <= rest[j - 1][0].at;
      }
    }
  }

  lemma SessionsSpaced(demand: seq<Demand>, window: Time)
    requires window >= 0
    ensures WellSpaced(SessionsOf(demand, window), window)
    ensures Flatten(SessionsOf(demand, window)) == Positive(Sort(demand, DemandTime))
    ensures AllSessionsPositive(SessionsOf(demand, window))
  {
    SortSorts(demand, DemandTime);
    PositiveOrdered(Sort(demand, DemandTime));
    SplitSpaced(Positive(Sort(demand, DemandTime)), window);
    SplitFlattens(Positive(Sort(demand, DemandTime)), window);
    SplitPositive(Positive(Sort(demand, DemandTime)), window);
  }

  lemma {:induction false} SessionPointsTimes(s: seq<Demand>, l: Limit)
    requires l.capacity > 0.0 && Ordered(s)
    ensures |SessionPoints(s, l)| == |s| && Chronological(SessionPoints(s, l))
    ensures forall k :: 0 <= k < |s| ==> SessionPoints(s, l)[k].at == s[k].at
  {
    if s != [] {
      SessionPointsTimes(s[..|s| - 1], l);
    }
  }

  lemma SessionSeriesTimes(s: seq<Demand>, l: Limit)
    requires l.capacity > 0.0 && l.window >= 0 && s != [] && Ordered(s) && Within(s, l.window)
    ensures var b := SessionSeries(s, l);
            Chronological(b) && (b != [] ==> b[0].at == s[0].at && b[|b| - 1].at == s[0].at + l.window)
  {
    SessionPointsTimes(s, l);
    assert s[|s| - 1].at <= s[0].at + l.window;
    if Counted(s, l) {
      ChronologicalSnoc(SessionPoints(s, l), SeriesPoint(s[0].at + l.window, 0.0));
    }
  }

  lemma {:induction false} RawChronological(sessions: seq<seq<Demand>>, l: Limit)
    requires l.capacity > 0.0 && l.window >= 0 && WellSpaced(sessions, l.window)
    ensures var raw := RawSeries(sessions, l);
            Chronological(raw) && (raw != [] ==>
                sessions != [] && raw[|raw| - 1].at <= sessions[|sessions| - 1][0].at + l.window)
  {
    if sessions != [] {
      var done, s := sessions[..|sessions| - 1], sessions[|sessions| - 1];
      RawChronological(done, l);
      SessionSeriesTimes(s, l);
      ChronologicalConcat(RawSeries(done, l), SessionSeries(s, l));
    }
  }

  /** What the session has used by t. */
  function UsedBy(s: seq<Demand>, t: Time): real {
    if s == [] then 0.0
    else UsedBy(s[..|s| - 1], t) + (if s[|s| - 1].at <= t then s[|s| - 1].weight else 0.0)
  }

  lemma {:induction false} UsedByAll(s: seq<Demand>, t: Time)
    requires forall k :: 0 <= k < |s| ==> s[k].at <= t
    ensures UsedBy(s, t) == Sum(s)
  {
    if s != [] {
      UsedByAll(s[..|s| - 1], t);
    }
  }

  lemma {:induction false} PointsShowUse(s: seq<Demand>, l: Limit, t: Time)
    requires l.capacity > 0.0 && Ordered(s) && s != [] && s[0].at <= t
    ensures UseAt(SessionPoints(s, l), t) == Percent(UsedBy(s, t), l.capacity)
  {
    var n := |s| - 1;
    if s[n].at <= t {
      UsedByAll(s, t);
    } else {
      OrderedTail(s, n);
      PointsShowUse(s[..n], l, t);
    }
  }

  /** A session is open from its first request until a window later. */
  predicate OpenAt(s: seq<Demand>, window: Time, t: Time)
    requires s != []
  {
    s[0].at <= t < s[0].at + window
  }

  /** use is what the open session has used by t, if it counts; nothing when no session is open. */
  ghost predicate IsLiveUse(use: real, sessions: seq<seq<Demand>>, l: Limit, t: Time)
    requires l.capacity > 0.0 && NonEmpty(sessions)
  {
    && (forall i :: 0 <= i < |sessions| && OpenAt(sessions[i], l.window, t) ==> use == UseOf(sessions[i], l, t))
    && ((forall i :: 0 <= i < |sessions| ==> !OpenAt(sessions[i], l.window, t)) ==> use == 0.0)
  }

  function UseOf(s: seq<Demand>, l: Limit, t: Time): real
    requires l.capacity > 0.0 && s != []
  {
    if Counted(s, l) then Percent(UsedBy(s, t), l.capacity) else 0.0
  }

  /** The series is the live use of the limit. */
  lemma {:induction false} SeriesIsLiveUse(sessions: seq<seq<Demand>>, l: Limit, t: Time)
    requires l.capacity > 0.0 && l.window >= 0 && WellSpaced(sessions, l.window)
    ensures IsLiveUse(UseAt(RawSeries(sessions, l), t), sessions, l, t)
  {
    if sessions != [] {
      var m := |sessions| - 1;
      assert sessions == sessions[..m] + [sessions[m]];
      SeriesIsLiveUse(sessions[..m], l, t);
      LastSessionUse(sessions[..m], sessions[m], l, t);
      LiveUseOneMore(sessions[..m], sessions[m], l, t, UseAt(RawSeries(sessions[..m], l), t));
    }
  }

  lemma LiveUseOneMore(done: seq<seq<Demand>>, s: seq<Demand>, l: Limit, t: Time, before: real)
    requires l.capacity > 0.0 && l.window >= 0 && WellSpaced(done + [s], l.window) && NonEmpty(done) && s != []
    requires IsLiveUse(before, done, l, t)
    ensures IsLiveUse(if s[0].at > t || !Counted(s, l) then before
                      else if OpenAt(s, l.window, t) then UseOf(s, l, t) else 0.0,
                      done + [s], l, t)
  {
    hide Percent, UsedBy, Ordered, Within, Counted;
    var all := done + [s];
    assert all[|done|] == s;
    forall i | 0 <= i < |done| ensures all[i] == done[i] && (s[0].at <= t ==> !OpenAt(done[i], l.window, t)) {
      assert all[i][0].at + l.window <= all[|done|][0].at;
    }
  }

  /** What the last session of a series shows at t. */
  lemma LastSessionUse(done: seq<seq<Demand>>, s: seq<Demand>, l: Limit, t: Time)
    requires l.capacity > 0.0 && l.window >= 0 && NonEmpty(done) && s != [] && Ordered(s) && Within(s, l.window)
    ensures UseAt(RawSeries(done + [s], l), t)
            == if s[0].at > t || !Counted(s, l) then UseAt(RawSeries(done, l), t)
               else if OpenAt(s, l.window, t) then UseOf(s, l, t) else 0.0
  {
    hide Percent, Ordered, Within;
    assert (done + [s])[..|done|] == done;
    SessionSeriesTimes(s, l);
    UseAtConcat(RawSeries(done, l), SessionSeries(s, l), t);
    if s[0].at <= t && Counted(s, l) {
      UseAtOneMore(SessionPoints(s, l), SeriesPoint(s[0].at + l.window, 0.0), t);
      PointsShowUse(s, l, t);
    }
  }

  // ------------------------------------------------------ how often it falls

  /** Within a session the use only rises. */
  lemma {:induction false} SessionRises(s: seq<Demand>, l: Limit)
    requires l.capacity > 0.0 && AllPositive(s)
    ensures var points := SessionPoints(s, l);
            && |points| == |s| && Falls(points, |points|) == 0
            && (s != [] ==> points[|s| - 1].percent == Percent(Sum(s), l.capacity))
            && (s != [] ==> points[0].percent > 0.0)
  {
    if s != [] {
      var n := |s| - 1;
      var rest, p := SessionPoints(s[..n], l), SeriesPoint(s[n].at, Percent(Sum(s), l.capacity));
      SessionRises(s[..n], l);
      assert SessionPoints(s, l) == rest + [p];
      FallsOneMore(rest, p);
      PercentRises(Sum(s[..n]), Sum(s), l.capacity);
      hide Percent, SessionPoints, Falls;
      assert Sum(s[..0]) == 0.0 && Percent(0.0, l.capacity) == 0.0 by {
        PercentOfNone(l.capacity);
      }
    }
  }

  /** A session falls once, at its end. */
  lemma SessionFallsOnce(s: seq<Demand>, l: Limit)
    requires l.capacity > 0.0 && s != [] && AllPositive(s)
    ensures var b := SessionSeries(s, l);
            && Falls(b, |b|) <= (if Counted(s, l) then 1 else 0)
            && (b != [] ==> b[0].percent > 0.0 && b[|b| - 1].percent == 0.0)
  {
    SessionRises(s, l);
    if Counted(s, l) {
      FallsOneMore(SessionPoints(s, l), SeriesPoint(s[0].at + l.window, 0.0));
    }
    hide Falls, SessionPoints, Percent;
  }

  /** The series falls no more often than there are windows. */
  lemma {:induction false} FallsPerWindow(sessions: seq<seq<Demand>>, l: Limit)
    requires l.capacity > 0.0 && NonEmpty(sessions) && AllSessionsPositive(sessions)
    ensures var raw := RawSeries(sessions, l);
            && Falls(raw, |raw|) <= Replay(sessions, l).windows
            && (raw != [] ==> raw[|raw| - 1].percent == 0.0)
  {
    if sessions != [] {
      var done, s := sessions[..|sessions| - 1], sessions[|sessions| - 1];
      FallsPerWindow(done, l);
      SessionFallsOnce(s, l);
      FallsConcat(RawSeries(done, l), SessionSeries(s, l));
      hide Falls, SessionSeries, Percent, Sum, Blocked, CrossAt, AllPositive;
    }
  }

  /** When the last of n windows starts at the earliest. */
  function Earliest(l: Limit, n: int): Time {
    l.from + (n - 1) * l.window
  }

  lemma EarliestOneMore(l: Limit, n: int)
    ensures Earliest(l, n + 1) == Earliest(l, n) + l.window && Earliest(l, 1) == l.from
  {
  }

  /** The windows that count start in the period, each a session's length after the one before. */
  lemma {:induction false} WindowsFit(sessions: seq<seq<Demand>>, l: Limit)
    requires l.capacity > 0.0 && WellSpaced(sessions, l.window) && l.window >= 0
    ensures var n := Replay(sessions, l).windows;
            n > 0 ==> Earliest(l, n) < l.to && sessions != [] && Earliest(l, n) <= sessions[|sessions| - 1][0].at
  {
    hide Earliest;
    if sessions != [] {
      var m := |sessions| - 1;
      WindowsFit(sessions[..m], l);
      EarliestOneMore(l, Replay(sessions[..m], l).windows);
      assert m > 0 ==> sessions[m - 1][0].at + l.window <= sessions[m][0].at;
      hide Ordered, Within, Percent, Sum, Blocked, CrossAt;
    }
  }

  lemma FewWindows(l: Limit, n: nat)
    requires l.window >= 0 && l.to - l.from <= 999 * l.window && n > 0 && Earliest(l, n) < l.to
    ensures n < 1000
  {
    var more := n - 1000;
    assert (n - 1) * l.window == more * l.window + 999 * l.window;
    MultipleSign(more, l.window);
  }

  lemma MultipleSign(n: int, w: int)
    ensures n >= 0 && w >= 0 ==> n * w >= 0
  {
  }

  lemma FewSessionsFall(sessions: seq<seq<Demand>>, l: Limit)
    requires l.capacity > 0.0 && WellSpaced(sessions, l.window) && l.window >= 0 && AllSessionsPositive(sessions)
    requires l.to - l.from <= 999 * l.window
    ensures Falls(RawSeries(sessions, l), |RawSeries(sessions, l)|) < 1000
  {
    hide Falls, RawSeries, Replay, Earliest;
    FallsPerWindow(sessions, l);
    WindowsFit(sessions, l);
    if Replay(sessions, l).windows > 0 {
      FewWindows(l, Replay(sessions, l).windows);
    }
    hide *;
  }

  // ----------------------------------------------------------------- the loop

  /** The loop's variables: the open session's end, its use and whether it
      counts and has been hit; the replay and the series so far. */
  datatype State = State(end: Option<Time>, used: real, counted: bool, hit: bool, replay: SessionReplay,
      series: seq<SeriesPoint>)

  const START := State(None, 0.0, false, false, NOTHING, [])

  /** The variables stand for the sessions so far, of which the last is still
      open: its peak is not taken and its end not in the series. */
  ghost predicate Stands(v: State, sessions: seq<seq<Demand>>, l: Limit)
    requires l.capacity > 0.0
  {
    && NonEmpty(sessions)
    && if sessions == [] then v == START
       else
         var done, s := sessions[..|sessions| - 1], sessions[|sessions| - 1];
         && v.end == Some(s[0].at + l.window) && v.counted == Counted(s, l)
         && (v.counted ==> v.used == Sum(s) && v.hit == (Sum(s) > l.capacity))
         && v.replay == Replay(sessions, l).(peakPercent := Replay(done, l).peakPercent)
         && v.series == RawSeries(done, l) + (if v.counted then SessionPoints(s, l) else [])
  }

  /** closeSession. */
  function Close(v: State, l: Limit): State
    requires l.capacity > 0.0
  {
    v.(replay := CloseReplay(v, l), series := CloseSeries(v))
  }

  function CloseReplay(v: State, l: Limit): SessionReplay
    requires l.capacity > 0.0
  {
    if v.counted && v.end.Some? then
      v.replay.(peakPercent := MaxReal(v.replay.peakPercent, Percent(v.used, l.capacity)))
    else v.replay
  }

  function CloseSeries(v: State): seq<SeriesPoint> {
    v.series + if v.counted && v.end.Some? then [SeriesPoint(v.end.value, 0.0)] else []
  }

  lemma ClosedStands(v: State, sessions: seq<seq<Demand>>, l: Limit)
    requires l.capacity > 0.0 && Stands(v, sessions, l)
    ensures Close(v, l).replay == Replay(sessions, l) && Close(v, l).series == RawSeries(sessions, l)
  {
    ClosedReplay(v, sessions, l);
    ClosedSeries(v, sessions, l);
    hide *;
  }

  lemma ClosedReplay(v: State, sessions: seq<seq<Demand>>, l: Limit)
    requires l.capacity > 0.0 && Stands(v, sessions, l)
    ensures CloseReplay(v, l) == Replay(sessions, l)
  {
    hide Percent, SessionPoints, RawSeries, Blocked, CrossAt, Sum;
  }

  lemma ClosedSeries(v: State, sessions: seq<seq<Demand>>, l: Limit)
    requires l.capacity > 0.0 && Stands(v, sessions, l)
    ensures CloseSeries(v) == RawSeries(sessions, l)
  {
    hide Percent, SessionPoints, Blocked, CrossAt, Sum, Replay, AddSession;
    if sessions != [] {
      var done, s := sessions[..|sessions| - 1], sessions[|sessions| - 1];
      assert RawSeries(done, l) + [] == RawSeries(done, l);
      assert CloseSeries(v) == RawSeries(done, l) + SessionSeries(s, l);
    }
  }

  /** A request that opens a session. */
  function Open(v: State, d: Demand, l: Limit): State
    requires l.capacity > 0.0
  {
    var closed := Close(v, l);
    var counted := l.from <= d.at < l.to;
    State(Some(d.at + l.window), 0.0, counted, false,
          if counted then closed.replay.(windows := closed.replay.windows + 1) else closed.replay, closed.series)
  }

  /** What a request adds to the open session, if that counts. */
  function Use(v: State, d: Demand, l: Limit): State
    requires l.capacity > 0.0
  {
    if !v.counted then v
    else
      var used := v.used + d.weight;
      var crossed := !v.hit && used > l.capacity;
      var r := v.replay.(total := v.replay.total + d.weight,
                         blocked := v.replay.blocked + if v.hit then d.weight else 0.0,
                         hitWindows := v.replay.hitWindows + if crossed then 1 else 0,
                         firstHit := if crossed && v.replay.firstHit.None? then Some(d.at) else v.replay.firstHit);
      v.(used := used, hit := v.hit || crossed, replay := r,
         series := v.series + [SeriesPoint(d.at, Percent(used, l.capacity))])
  }

  /** What it takes to stand for sessions of which s is the last. */
  lemma StandsWith(v: State, done: seq<seq<Demand>>, s: seq<Demand>, l: Limit)
    requires l.capacity > 0.0 && NonEmpty(done) && s != []
    requires v.end == Some(s[0].at + l.window) && v.counted == Counted(s, l)
    requires v.counted ==> v.used == Sum(s) && v.hit == (Sum(s) > l.capacity)
    requires NonEmpty(done + [s]) && v.replay == Replay(done + [s], l).(peakPercent := Replay(done, l).peakPercent)
    requires v.series == RawSeries(done, l) + (if v.counted then SessionPoints(s, l) else [])
    ensures Stands(v, done + [s], l)
  {
    assert (done + [s])[..|done|] == done && (done + [s])[|done|] == s;
    hide Sum, Replay, RawSeries, SessionPoints;
  }

  /** A session that opens with d. */
  lemma OpenStands(v: State, sessions: seq<seq<Demand>>, d: Demand, l: Limit)
    requires l.capacity > 0.0 && Stands(v, sessions, l)
    ensures Stands(Use(Open(v, d, l), d, l), sessions + [[d]], l)
  {
    ClosedStands(v, sessions, l);
    SumOfOne(d, l);
    OpenReplay(v, sessions, d, l);
    OpenSeries(v, sessions, d, l);
    hide Stands, Replay, RawSeries, SessionPoints, Sum, Percent, Close, CrossAt, Blocked;
    StandsWith(Use(Open(v, d, l), d, l), sessions, [d], l);
    hide Use, Open;
  }

  lemma SumOfOne(d: Demand, l: Limit)
    requires l.capacity > 0.0
    ensures Sum([d]) == d.weight && Blocked([d], l.capacity) == 0.0
    ensures CrossAt([d], l.capacity) == if d.weight > l.capacity then Some(d.at) else None
    ensures SessionPoints([d], l) == [SeriesPoint(d.at, Percent(d.weight, l.capacity))]
  {
    OneMore([], d, l.capacity);
    PointsOneMore([], d, l);
    assert [] + [d] == [d];
    NothingUsed(l);
    hide Percent, Sum, Blocked, CrossAt, SessionPoints;
  }

  lemma NothingUsed(l: Limit)
    requires l.capacity > 0.0
    ensures Sum([]) == 0.0 && Blocked([], l.capacity) == 0.0 && CrossAt([], l.capacity) == None
    ensures SessionPoints([], l) == []
  {
  }

  lemma OpenReplay(v: State, sessions: seq<seq<Demand>>, d: Demand, l: Limit)
    requires l.capacity > 0.0 && NonEmpty(sessions) && Close(v, l).replay == Replay(sessions, l)
    ensures NonEmpty(sessions + [[d]])
    ensures Use(Open(v, d, l), d, l).replay
            == Replay(sessions + [[d]], l).(peakPercent := Replay(sessions, l).peakPercent)
  {
    SumOfOne(d, l);
    var all := sessions + [[d]];
    assert all[..|all| - 1] == sessions && all[|all| - 1] == [d];
    hide Percent, Close, Sum, CrossAt, Blocked, RawSeries, SessionPoints;
    assert Replay(all, l) == AddSession(Replay(sessions, l), [d], l);
  }

  lemma OpenSeries(v: State, sessions: seq<seq<Demand>>, d: Demand, l: Limit)
    requires l.capacity > 0.0 && NonEmpty(sessions) && Close(v, l).series == RawSeries(sessions, l)
    ensures var v' := Use(Open(v, d, l), d, l);
            v'.series == RawSeries(sessions, l) + (if v'.counted then SessionPoints([d], l) else [])
  {
    SumOfOne(d, l);
    hide Percent, Close, Sum, CrossAt, Blocked, RawSeries, SessionPoints, Replay;
    assert RawSeries(sessions, l) + [] == RawSeries(sessions, l);
  }

  lemma UseReplay(v: State, done: seq<seq<Demand>>, s: seq<Demand>, d: Demand, l: Limit)
    requires l.capacity > 0.0 && NonEmpty(done) && s != [] && Stands(v, done + [s], l) && AllPositive(s)
        && d.weight > 0.0
    ensures Use(v, d, l).replay == Replay(done + [s + [d]], l).(peakPercent := Replay(done, l).peakPercent)
  {
    assert (done + [s])[..|done|] == done && (done + [s + [d]])[..|done|] == done;
    OneMore(s, d, l.capacity);
    HitSession(s, l.capacity);
    assert (s + [d])[0] == s[0];
    hide Percent, Crosses, AllPositive, Blocked, CrossAt, Sum, RawSeries, SessionPoints;
    assert (s + [d])[0] == s[0];
  }

  lemma PointsOneMore(s: seq<Demand>, d: Demand, l: Limit)
    requires l.capacity > 0.0
    ensures SessionPoints(s + [d], l) == SessionPoints(s, l) + [SeriesPoint(d.at, Percent(Sum(s + [d]), l.capacity))]
  {
    assert (s + [d])[..|s|] == s;
    hide Percent, Sum;
  }

  lemma UseSeries(v: State, done: seq<seq<Demand>>, s: seq<Demand>, d: Demand, l: Limit)
    requires l.capacity > 0.0 && NonEmpty(done) && s != [] && Stands(v, done + [s], l)
    ensures Use(v, d, l).series == RawSeries(done, l) + (if v.counted then SessionPoints(s + [d], l) else [])
  {
    hide Percent, Blocked, CrossAt, Replay, RawSeries, SessionPoints, Sum, NonEmpty;
    assert (done + [s])[..|done|] == done;
    if v.counted {
      OneMore(s, d, l.capacity);
      PointsOneMore(s, d, l);
      var p := SeriesPoint(d.at, Percent(Sum(s) + d.weight, l.capacity));
      assert RawSeries(done, l) + (SessionPoints(s, l) + [p]) == RawSeries(done, l) + SessionPoints(s, l) + [p];
    }
  }

  /** A request of the open session. */
  lemma UseStands(v: State, done: seq<seq<Demand>>, s: seq<Demand>, d: Demand, l: Limit)
    requires l.capacity > 0.0 && NonEmpty(done) && s != [] && Stands(v, done + [s], l) && AllPositive(s)
        && d.weight > 0.0
    ensures Stands(Use(v, d, l), done + [s + [d]], l)
  {
    UseReplay(v, done, s, d, l);
    UseSeries(v, done, s, d, l);
    OneMore(s, d, l.capacity);
    assert (done + [s])[..|done|] == done && (done + [s])[|done|] == s && (s + [d])[0] == s[0];
    hide Percent, Blocked, CrossAt, Replay, RawSeries, SessionPoints, Sum, AllPositive;
    assert Stands(v, done + [s], l);
    StandsWith(Use(v, d, l), done, s + [d], l);
    hide Stands, Use;
  }

  lemma {:induction false} SplitPositive(ds: seq<Demand>, window: Time)
    requires Ordered(ds)
    ensures AllSessionsPositive(Split(ds, window))
  {
    if ds != [] {
      var n := RunLength(ds, ds[0].at + window, 1);
      OrderedTail(ds, n);
      SplitPositive(ds[n..], window);
    }
  }

  lemma {:induction false} PositiveOrdered(ds: seq<Demand>)
    requires SortedBy(ds, DemandTime)
    ensures Ordered(Positive(ds)) && forall d :: d in Positive(ds) ==> d in ds
  {
    if ds != [] {
      var n := |ds| - 1;
      PositiveOrdered(ds[..n]);
      forall d | d in Positive(ds[..n]) ensures d.at <= ds[n].at {
        var i :| 0 <= i < n && ds[i] == d;
        assert DemandTime(ds[i]) <= DemandTime(ds[n]);
      }
    }
  }

  /** The sessions recorded demand falls into: what ReplaySessions goes by. */
  function SessionsOf(demand: seq<Demand>, window: Time): (sessions: seq<seq<Demand>>)
    ensures NonEmpty(sessions)
  {
    Split(Positive(Sort(demand, DemandTime)), window)
  }

  /** The series is the raw one cut to [from, to) and thinned. */
  ghost predicate IsSeriesOf(out: seq<SeriesPoint>, raw: seq<SeriesPoint>, from: Time, to: Time) {
    exists clipped: seq<SeriesPoint> :: Chronological(clipped) && out == Thinned(clipped)
      && (from < to ==> forall p :: p in clipped ==> from <= p.at < to)
      && (forall t :: from <= t < to ==> UseAt(clipped, t) == UseAt(raw, t))
  }

  /** What the loop does with a request. */
  function Request(v: State, d: Demand, l: Limit): State
    requires l.capacity > 0.0
  {
    Use(if v.end.None? || d.at >= v.end.value then Open(v, d, l) else v, d, l)
  }

  lemma RequestStands(v: State, ds: seq<Demand>, d: Demand, l: Limit)
    requires l.capacity > 0.0 && Ordered(ds + [d]) && Stands(v, Split(ds, l.window), l)
    ensures Stands(Request(v, d, l), Split(ds + [d], l.window), l)
  {
    hide Split, Use, Open, Ordered, Stands, Replay, RawSeries, SessionPoints, AllPositive, Append, Request;
    SplitOneMore(ds, d, l.window);
    OrderedPrefix(ds, d);
    SplitPositive(ds, l.window);
    RequestAppends(v, Split(ds, l.window), d, l);
  }

  lemma RequestAppends(v: State, sessions: seq<seq<Demand>>, d: Demand, l: Limit)
    requires l.capacity > 0.0 && Stands(v, sessions, l) && NonEmpty(sessions) && AllSessionsPositive(sessions)
    requires d.weight > 0.0
    ensures Stands(Request(v, d, l), Append(sessions, d, l.window), l)
  {
    hide Use, Open, Stands, Replay, RawSeries, SessionPoints, AllPositive, AllSessionsPositive, NonEmpty;
    EndOfOpen(v, sessions, l);
    if v.end.None? || d.at >= v.end.value {
      OpenStands(v, sessions, d, l);
      assert Request(v, d, l) == Use(Open(v, d, l), d, l) && Append(sessions, d, l.window) == sessions + [[d]];
    } else {
      JoinStands(v, sessions, d, l);
      assert Request(v, d, l) == Use(v, d, l);
      assert Append(sessions, d, l.window) == sessions[..|sessions| - 1] + [sessions[|sessions| - 1] + [d]];
    }
    hide *;
  }

  lemma JoinStands(v: State, sessions: seq<seq<Demand>>, d: Demand, l: Limit)
    requires l.capacity > 0.0 && Stands(v, sessions, l) && NonEmpty(sessions) && AllSessionsPositive(sessions)
    requires d.weight > 0.0 && sessions != []
    ensures var m := |sessions| - 1; Stands(Use(v, d, l), sessions[..m] + [sessions[m] + [d]], l)
  {
    var m := |sessions| - 1;
    assert sessions == sessions[..m] + [sessions[m]] && AllPositive(sessions[m]);
    hide Use, Stands, AllPositive, AllSessionsPositive;
    UseStands(v, sessions[..m], sessions[m], d, l);
  }

  lemma OrderedPrefix(ds: seq<Demand>, d: Demand)
    requires Ordered(ds + [d])
    ensures Ordered(ds) && d.weight > 0.0
  {
    OrderedTail(ds + [d], |ds|);
    assert (ds + [d])[..|ds|] == ds && (ds + [d])[|ds|] == d;
  }

  lemma EndOfOpen(v: State, sessions: seq<seq<Demand>>, l: Limit)
    requires l.capacity > 0.0 && Stands(v, sessions, l)
    ensures v.end == if sessions == [] then None else Some(sessions[|sessions| - 1][0].at + l.window)
  {
    hide Replay, RawSeries, SessionPoints, Sum;
  }

  /** The loop over the sorted demand. */
  method ScanRequests(stream: seq<Demand>, l: Limit) returns (v: State)
    requires l.capacity > 0.0 && SortedBy(stream, DemandTime)
    ensures Stands(v, Split(Positive(stream), l.window), l)
  {
    hide Positive, Split, Use, Open, SortedBy, Stands, Ordered;
    v := START;
    StartStands(stream, l);
    for i := 0 to |stream|
      invariant Stands(v, Split(Positive(stream[..i]), l.window), l)
    {
      var d := stream[i];
      ghost var ds, before := Positive(stream[..i]), v;
      PositiveOneMore(stream, i);
      if d.weight <= 0.0 {
        continue;
      }
      RequestStands(v, ds, d, l);
      if v.end.None? || d.at >= v.end.value {
        v := Open(v, d, l);
      }
      v := Use(v, d, l);
      assert v == Request(before, d, l);
    }
    assert stream[..|stream|] == stream;
  }

  lemma StartStands(stream: seq<Demand>, l: Limit)
    requires l.capacity > 0.0
    ensures Stands(START, Split(Positive(stream[..0]), l.window), l)
  {
  }

  lemma PositiveOneMore(stream: seq<Demand>, i: nat)
    requires SortedBy(stream, DemandTime) && i < |stream|
    ensures var ds := Positive(stream[..i]);
            && Positive(stream[..i + 1]) == (if stream[i].weight > 0.0 then ds + [stream[i]] else ds)
            && (stream[i].weight > 0.0 ==> Ordered(ds + [stream[i]]))
  {
    assert stream[..i + 1][..i] == stream[..i];
    PositiveOrdered(stream[..i + 1]);
    hide Ordered, SortedBy;
    assert Positive(stream[..i]) + [] == Positive(stream[..i]);
  }

  /** A raw series cut to the period and thinned. */
  method Drawn(raw: seq<SeriesPoint>, from: Time, to: Time) returns (series: seq<SeriesPoint>)
    requires Chronological(raw)
    ensures IsSeriesOf(series, raw, from, to)
    ensures Falls(raw, |raw|) < 1000 ==> |series| <= MAX_POINTS
  {
    hide Thinned, Chronological, Falls;
    var clipped := ClipSeries(raw, from, to);
    series := ThinSeries(clipped);
    if Falls(raw, |raw|) < 1000 {
      FewFallsFit(clipped);
    }
  }

  /** ReplaySessionsSeries. Over a period of 999 sessions' length, which is more
      than the lookback, the series keeps the documented bound. */
  method ReplaySessions(demand: seq<Demand>, l: Limit) returns (r: SessionReplay, series: seq<SeriesPoint>)
    requires l.window >= 0
    ensures l.capacity <= 0.0 ==> r == NOTHING && series == []
    ensures l.capacity > 0.0 ==> r == Replay(SessionsOf(demand, l.window), l)
                                 && IsSeriesOf(series, RawSeries(SessionsOf(demand, l.window), l), l.from, l.to)
    ensures l.capacity > 0.0 ==> Tells(r, InPeriod(SessionsOf(demand, l.window), l), l.capacity)
    ensures l.to - l.from <= 999 * l.window ==> |series| <= MAX_POINTS
  {
    if l.capacity <= 0.0 {
      return NOTHING, [];
    }
    var stream := Sort(demand, DemandTime);
    SortSorts(demand, DemandTime);
    var v := ScanRequests(stream, l);
    ghost var sessions := SessionsOf(demand, l.window);
    SessionsSpaced(demand, l.window);
    hide SessionsOf, Replay, RawSeries, Close, Stands, WellSpaced, Thinned, Chronological, Falls, AllSessionsPositive,
         Tells, InPeriod;
    ClosedStands(v, sessions, l);
    v := Close(v, l);
    RawChronological(sessions, l);
    ReplayTells(sessions, l);
    if l.to - l.from <= 999 * l.window {
      FewSessionsFall(sessions, l);
    }
    series := Drawn(v.series, l.from, l.to);
    r := v.replay;
  }

  // ---------------------------------------------------------- separate limits

  /** Adds the replays of separate limits, each person's own. */
  function Merge(r: SessionReplay, o: SessionReplay): SessionReplay {
    SessionReplay(r.windows + o.windows, r.hitWindows + o.hitWindows,
                  if r.firstHit.None? || (o.firstHit.Some? && o.firstHit.value < r.firstHit.value) then o.firstHit
                      else r.firstHit,
                  MaxReal(r.peakPercent, o.peakPercent), r.total + o.total, r.blocked + o.blocked)
  }

  /** Merged replays count and add up together; the merged peak is the higher
      one and the merged first hit the earlier one. */
  lemma MergeSums(a: SessionReplay, b: SessionReplay)
    ensures var m := Merge(a, b);
            && m.windows == a.windows + b.windows && m.hitWindows == a.hitWindows + b.hitWindows
            && m.total == a.total + b.total && m.blocked == a.blocked + b.blocked
            && a.peakPercent <= m.peakPercent && b.peakPercent <= m.peakPercent
            && (m.peakPercent == a.peakPercent || m.peakPercent == b.peakPercent)
            && (m.firstHit == a.firstHit || m.firstHit == b.firstHit)
            && (forall t :: a.firstHit == Some(t) || b.firstHit == Some(t) ==>
                m.firstHit.Some? && m.firstHit.value <= t)
  {
  }

  /** Members' replays may be merged in any order and any grouping, starting
      from an empty one, and the sum is as consistent as its parts. */
  lemma MergeLaws(a: SessionReplay, b: SessionReplay, c: SessionReplay)
    requires Consistent(a) && Consistent(b) && Consistent(c)
    ensures Merge(a, b) == Merge(b, a) && Merge(Merge(a, b), c) == Merge(a, Merge(b, c))
    ensures Merge(NOTHING, a) == a && Consistent(Merge(a, b))
    ensures Merge(a, b).firstHit.Some? <==> a.firstHit.Some? || b.firstHit.Some?
  {
  }
}
