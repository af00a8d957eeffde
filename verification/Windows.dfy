/** The limit windows that readings describe: groupByReset, measure,
    FiveHourWindows and WeeklyWindows of internal/quota/capacity.go. */
module Windows {
  import opened Records
  import opened Sorting
  import opened Rolling
  import opened DemandSums
  import opened PlanHistory

  /** One provider report of a window's use. */
  datatype Reading = Reading(observedAt: Time, resetsAt: Time, used: real, plan: string)

  /** Readings of one window report resets that differ by no more than this. */
  const SLACK: Time := 2 * MINUTE

  function ObservedTime(r: Reading): int { r.observedAt }

  /** The reset time to the nearest minute. */
  function RoundedReset(r: Reading): int { RoundToMinute(r.resetsAt) }

  // ---------------------------------------------------------- groups by reset

  /** Adds a reading to the last chain when its reset is within the slack of that chain's last. */
  function Join(chains: seq<seq<Reading>>, r: Reading): seq<seq<Reading>>
    requires forall k :: 0 <= k < |chains| ==> chains[k] != []
  {
    var m := |chains| - 1;
    if chains != [] && RoundedReset(r) - RoundedReset(chains[m][|chains[m]| - 1]) <= SLACK
        then chains[m := chains[m] + [r]]
    else chains + [[r]]
  }

  function Chains(sorted: seq<Reading>): (chains: seq<seq<Reading>>)
    ensures forall k :: 0 <= k < |chains| ==> chains[k] != []
  {
    if sorted == [] then [] else Join(Chains(sorted[..|sorted| - 1]), sorted[|sorted| - 1])
  }

  function OldestFirst(chains: seq<seq<Reading>>): (groups: seq<seq<Reading>>)
    ensures |groups| == |chains| && forall k :: 0 <= k < |groups| ==> groups[k] == Sort(chains[k], ObservedTime)
  {
    seq(|chains|, k requires 0 <= k < |chains| => Sort(chains[k], ObservedTime))
  }

  function Groups(readings: seq<Reading>): seq<seq<Reading>> {
    OldestFirst(Chains(Sort(readings, RoundedReset)))
  }

  method GroupByReset(readings: seq<Reading>) returns (groups: seq<seq<Reading>>)
    ensures groups == Groups(readings)
  {
    var sorted := Sort(readings, RoundedReset);
    hide RoundedReset, Sort;
    groups := [];
    for i := 0 to |sorted|
      invariant groups == Chains(sorted[..i])
    {
      var r, n := sorted[i], |groups|;
      assert sorted[..i + 1][..i] == sorted[..i];
      if n > 0 && RoundedReset(r) - RoundedReset(groups[n - 1][|groups[n - 1]| - 1]) <= SLACK {
        groups := groups[n - 1 := groups[n - 1] + [r]];
      } else {
        groups := groups + [[r]];
      }
    }
    assert sorted[..|sorted|] == sorted;
    ghost var chains := groups;
    hide Chains;
    for k := 0 to |groups|
      invariant |groups| == |chains|
      invariant forall j :: k <= j < |groups| ==> groups[j] == chains[j]
      invariant forall j :: 0 <= j < k ==> groups[j] == Sort(chains[j], ObservedTime)
    {
      groups := groups[k := Sort(groups[k], ObservedTime)];
    }
  }

  // --------------------------------------------------------- what groups mean

  /** Every reset of a comes more than the slack before every reset of b. */
  ghost predicate Far(a: seq<Reading>, b: seq<Reading>) {
    forall x, y :: x in a && y in b ==> RoundedReset(x) + SLACK < RoundedReset(y)
  }

  ghost predicate Separated(groups: seq<seq<Reading>>) {
    forall k, m :: 0 <= k < m < |groups| ==> Far(groups[k], groups[m])
  }

  /** In reset order, each within the slack of the next. */
  ghost predicate Steps(chain: seq<Reading>) {
    && chain != [] && SortedBy(chain, RoundedReset)
    && forall i :: 0 <= i < |chain| - 1 ==> RoundedReset(chain[i + 1]) - RoundedReset(chain[i]) <= SLACK
  }

  /** Some reset follows x within two minutes. */
  ghost predicate Continues(rs: seq<Reading>, x: Time) {
    exists r :: r in rs && x < RoundedReset(r) <= x + 120_000_000_000
  }

  /** The resets leave no gap wider than the slack from a to b. */
  ghost predicate NoGap(rs: seq<Reading>, a: Time, b: Time) {
    forall x :: a <= x < b ==> Continues(rs, x)
  }

  lemma StepsSnoc(chain: seq<Reading>, r: Reading)
    requires Steps(chain) && 0 <= RoundedReset(r) - RoundedReset(chain[|chain| - 1]) <= SLACK
    ensures Steps(chain + [r])
  {
    hide RoundedReset;
    var all := chain + [r];
    forall i, j | 0 <= i < j < |all| ensures RoundedReset(all[i]) <= RoundedReset(all[j]) {
      assert RoundedReset(chain[i]) <= RoundedReset(chain[|chain| - 1]);
    }
  }

  ghost predicate AreChains(chains: seq<seq<Reading>>, sorted: seq<Reading>) {
    && Flatten(chains) == sorted && Separated(chains)
    && forall k :: 0 <= k < |chains| ==> Steps(chains[k])
  }

  lemma LastIsLatest(chains: seq<seq<Reading>>, k: nat, x: Reading)
    requires Separated(chains) && k < |chains| && x in chains[k] && Steps(chains[|chains| - 1])
    ensures var last := chains[|chains| - 1];
            RoundedReset(x) <= RoundedReset(last[|last| - 1])
  {
    hide RoundedReset;
    var m := |chains| - 1;
    var last := chains[m];
    if k < m {
      assert Far(chains[k], last);
      assert last[|last| - 1] in last;
    } else {
      var i :| 0 <= i < |last| && last[i] == x;
    }
  }

  lemma JoinLast(chains: seq<seq<Reading>>, sorted: seq<Reading>, r: Reading)
    requires AreChains(chains, sorted) && chains != []
    requires var last := chains[|chains| - 1];
             last != [] && 0 <= RoundedReset(r) - RoundedReset(last[|last| - 1]) <= SLACK
    ensures var m := |chains| - 1;
            AreChains(chains[m := chains[m] + [r]], sorted + [r])
  {
    var m := |chains| - 1;
    var all := chains[m := chains[m] + [r]];
    hide RoundedReset, SortedBy, Sort;
    StepsSnoc(chains[m], r);
    FlattenAt(chains, m);
    FlattenUpdate(chains, m, chains[m] + [r]);
    assert chains[m + 1..] == [];
    hide Flatten, Steps, Far;
    forall k | 0 <= k < m ensures Far(all[k], all[m]) {
      assert Far(chains[k], chains[m]);
      FarSnoc(chains[k], chains[m], r, chains[m][|chains[m]| - 1]);
    }
  }

  lemma JoinNew(chains: seq<seq<Reading>>, sorted: seq<Reading>, r: Reading)
    requires AreChains(chains, sorted)
    requires chains != [] ==>
      var last := chains[|chains| - 1];
      last != [] && RoundedReset(r) - RoundedReset(last[|last| - 1]) > SLACK
    ensures AreChains(chains + [[r]], sorted + [r])
  {
    FlattenSnoc(chains, [r]);
    assert Steps([r]);
    hide RoundedReset, SortedBy, Sort, Steps;
    forall k | 0 <= k < |chains| ensures Far(chains[k], [r]) {
      forall x | x in chains[k] ensures RoundedReset(x) + SLACK < RoundedReset(r) {
        LastIsLatest(chains, k, x);
      }
    }
  }

  lemma JoinChains(chains: seq<seq<Reading>>, sorted: seq<Reading>, r: Reading)
    requires AreChains(chains, sorted) && SortedBy(sorted + [r], RoundedReset)
    requires forall k :: 0 <= k < |chains| ==> chains[k] != []
    ensures AreChains(Join(chains, r), sorted + [r])
  {
    var m := |chains| - 1;
    if chains != [] && RoundedReset(r) - RoundedReset(chains[m][|chains[m]| - 1]) <= SLACK {
      LastOfFlatten(chains);
      var all := sorted + [r];
      assert all[|sorted| - 1] == chains[m][|chains[m]| - 1] && all[|sorted|] == r;
      assert RoundedReset(all[|sorted| - 1]) <= RoundedReset(all[|sorted|]);
      hide RoundedReset, SortedBy, AreChains;
      JoinLast(chains, sorted, r);
    } else {
      hide RoundedReset, SortedBy, AreChains;
      JoinNew(chains, sorted, r);
    }
  }

  lemma FarSnoc(a: seq<Reading>, b: seq<Reading>, r: Reading, last: Reading)
    requires Far(a, b) && last in b && RoundedReset(last) <= RoundedReset(r)
    ensures Far(a, b + [r])
  {
    hide RoundedReset;
    forall x | x in a ensures RoundedReset(x) + SLACK < RoundedReset(r) {
      assert RoundedReset(x) + SLACK < RoundedReset(last);
    }
  }

  lemma LastOfFlatten<T>(groups: seq<seq<T>>)
    requires groups != [] && groups[|groups| - 1] != []
    ensures var all, last := Flatten(groups), groups[|groups| - 1];
            all != [] && all[|all| - 1] == last[|last| - 1]
  {
    var m := |groups| - 1;
    FlattenAt(groups, m);
    assert groups[m + 1..] == [] && Flatten<T>([]) == [];
  }

  lemma {:induction false} ChainsAre(sorted: seq<Reading>)
    requires SortedBy(sorted, RoundedReset)
    ensures AreChains(Chains(sorted), sorted)
  {
    if sorted != [] {
      var n := |sorted| - 1;
      ChainsAre(sorted[..n]);
      assert sorted[..n] + [sorted[n]] == sorted;
      hide SortedBy, AreChains, Join;
      JoinChains(Chains(sorted[..n]), sorted[..n], sorted[n]);
    }
  }

  lemma StepsNoGap(chain: seq<Reading>, i: nat, j: nat, x: Time)
    requires Steps(chain) && i < |chain| && j < |chain| && RoundedReset(chain[i]) <= x < RoundedReset(chain[j])
    ensures Continues(chain, x)
  {
    hide RoundedReset;
    var k := j;
    assert i < j;
    while RoundedReset(chain[k - 1]) > x
      invariant i < k <= j && x < RoundedReset(chain[k])
      decreases k
    {
      k := k - 1;
    }
    assert RoundedReset(chain[k - 1 + 1]) - RoundedReset(chain[k - 1]) <= SLACK;
    assert chain[k] in chain;
  }

  /** Grouping loses and repeats no reading, keeps different groups' resets
      more than the slack apart, and orders each group oldest first. */
  ghost predicate IsGrouping(groups: seq<seq<Reading>>, readings: seq<Reading>) {
    && multiset(Flatten(groups)) == multiset(readings) && Separated(groups)
    && forall k :: 0 <= k < |groups| ==> groups[k] != [] && SortedBy(groups[k], ObservedTime)
  }

  lemma {:induction false} SortedGroups(chains: seq<seq<Reading>>, groups: seq<seq<Reading>>)
    requires |groups| == |chains| && forall k :: 0 <= k < |groups| ==> groups[k] == Sort(chains[k], ObservedTime)
    ensures multiset(Flatten(groups)) == multiset(Flatten(chains))
  {
    if chains != [] {
      hide Sort;
      assert groups[0] == Sort(chains[0], ObservedTime);
      SortSorts(chains[0], ObservedTime);
      SortedGroups(chains[1..], groups[1..]);
    }
  }

  lemma SameGroups(chains: seq<seq<Reading>>, groups: seq<seq<Reading>>)
    requires Separated(chains) && |groups| == |chains|
    requires forall k :: 0 <= k < |groups| ==> multiset(groups[k]) == multiset(chains[k])
    ensures Separated(groups)
  {
    hide RoundedReset;
    forall k, m | 0 <= k < m < |groups| ensures Far(groups[k], groups[m]) {
      SameMembers(groups[k], chains[k]);
      SameMembers(groups[m], chains[m]);
      assert Far(chains[k], chains[m]);
    }
  }

  lemma GroupsPartition(readings: seq<Reading>)
    ensures IsGrouping(Groups(readings), readings)
  {
    var sorted := Sort(readings, RoundedReset);
    var chains, groups := Chains(sorted), Groups(readings);
    SortSorts(readings, RoundedReset);
    ChainsAre(sorted);
    forall k | 0 <= k < |chains| ensures IsSorting(groups[k], chains[k], ObservedTime) {
      SortSorts(chains[k], ObservedTime);
    }
    SortedGroups(chains, groups);
    SameGroups(chains, groups);
    hide RoundedReset, Sort, Chains, OldestFirst, Join, SortedBy, Separated, Flatten, Steps;
    forall k | 0 <= k < |groups| ensures groups[k] != [] {
      assert |multiset(groups[k])| == |groups[k]| && |multiset(chains[k])| == |chains[k]|;
    }
  }

  /** The chain a group was sorted from. */
  lemma ChainOf(readings: seq<Reading>, k: nat) returns (chain: seq<Reading>)
    requires k < |Groups(readings)|
    ensures Steps(chain) && multiset(chain) == multiset(Groups(readings)[k])
    ensures forall r :: r in chain ==> r in readings
  {
    var sorted := Sort(readings, RoundedReset);
    SortSorts(readings, RoundedReset);
    ChainsAre(sorted);
    SortSorts(Chains(sorted)[k], ObservedTime);
    hide RoundedReset, Chains, Join, Flatten, Separated, SortedBy, Steps;
    chain := Chains(sorted)[k];
    forall r | r in chain ensures r in readings {
      InGroup(Chains(sorted), k, r);
      SameMembers(sorted, readings);
    }
  }

  lemma GroupHasNoGap(readings: seq<Reading>, k: nat, a: Reading, b: Reading)
    requires k < |Groups(readings)| && a in Groups(readings)[k] && b in Groups(readings)[k]
    ensures NoGap(readings, RoundedReset(a), RoundedReset(b))
  {
    hide Groups, RoundedReset, Steps;
    var chain := ChainOf(readings, k);
    SameMembers(chain, Groups(readings)[k]);
    var i :| 0 <= i < |chain| && chain[i] == a;
    var j :| 0 <= j < |chain| && chain[j] == b;
    forall x | RoundedReset(a) <= x < RoundedReset(b) ensures Continues(readings, x) {
      StepsNoGap(chain, i, j, x);
    }
  }

  lemma {:induction false} LatestReset(group: seq<Reading>) returns (last: Reading)
    requires group != []
    ensures last in group && forall r :: r in group ==> RoundedReset(r) <= RoundedReset(last)
  {
    hide RoundedReset;
    var n := |group| - 1;
    last := group[n];
    if n > 0 {
      var before := LatestReset(group[..n]);
      if RoundedReset(before) > RoundedReset(last) {
        last := before;
      }
      forall r | r in group ensures RoundedReset(r) <= RoundedReset(last) {
        assert r == group[n] || r in group[..n];
      }
    }
  }

  lemma InGroup<T>(groups: seq<seq<T>>, k: nat, x: T)
    requires k < |groups| && x in groups[k]
    ensures x in Flatten(groups)
  {
    FlattenAt(groups, k);
  }

  lemma {:induction false} InFlatten<T>(groups: seq<seq<T>>, x: T) returns (k: nat)
    requires x in Flatten(groups)
    ensures k < |groups| && x in groups[k]
  {
    if x in groups[0] {
      k := 0;
    } else {
      k := InFlatten(groups[1..], x);
      k := k + 1;
    }
  }

  lemma GapBetween(groups: seq<seq<Reading>>, readings: seq<Reading>, k: nat, m: nat, a: Reading, b: Reading)
    requires IsGrouping(groups, readings) && k < m < |groups| && a in groups[k] && b in groups[m]
    ensures !NoGap(readings, RoundedReset(a), RoundedReset(b))
  {
    hide RoundedReset, SortedBy;
    var last := LatestReset(groups[k]);
    assert Far(groups[k], groups[m]);
    forall r | r in readings ensures !(RoundedReset(last) < RoundedReset(r) <= RoundedReset(last) + SLACK) {
      SameMembers(Flatten(groups), readings);
      var q := InFlatten(groups, r);
      assert q < k ==> Far(groups[q], groups[k]);
      assert k < q ==> Far(groups[k], groups[q]);
    }
    assert !Continues(readings, RoundedReset(last));
  }

  lemma GroupOrder(groups: seq<seq<Reading>>, k: nat, m: nat, a: Reading, b: Reading)
    requires Separated(groups) && k < |groups| && m < |groups| && a in groups[k] && b in groups[m]
    requires RoundedReset(a) <= RoundedReset(b)
    ensures k <= m
  {
  }

  /** Two readings are of one window exactly when no gap between their resets
      is wider than the slack. */
  lemma GroupedIffNoGap(readings: seq<Reading>, k: nat, m: nat, a: Reading, b: Reading)
    requires k < |Groups(readings)| && m < |Groups(readings)| && a in Groups(readings)[k] && b in Groups(readings)[m]
    requires RoundedReset(a) <= RoundedReset(b)
    ensures k == m <==> NoGap(readings, RoundedReset(a), RoundedReset(b))
  {
    GroupsPartition(readings);
    hide RoundedReset, Groups;
    if k == m {
      GroupHasNoGap(readings, k, a, b);
    } else {
      GroupOrder(Groups(readings), k, m, a, b);
      GapBetween(Groups(readings), readings, k, m, a, b);
    }
  }

  // ------------------------------------------------------------------ measure

  /** Why a window gives no calibration sample. */
  datatype Excluded = NotExcluded | UnknownPlan | PlanChanged | NoSample | LowCost

  /** One limit window as readings observed it. */
  datatype Window = Window(
    start: Time, resetsAt: Time, plan: string, maxUsed: real, maxAt: Option<Time>, saturated: bool,
    firstFull: Option<Time>, costAtMax: real, ratio: real, excluded: Excluded)

  const MIN_SAMPLE_USED: real := 5.0
  const MIN_SAMPLE_COST: real := 5.0

  function NewWindow(start: Time, resetsAt: Time, plan: string, excluded: Excluded): Window {
    Window(start, resetsAt, plan, 0.0, None, false, None, 0.0, 0.0, excluded)
  }

  /** Reading k is the first to reach the highest use. */
  ghost predicate FirstHighest(readings: seq<Reading>, k: nat) {
    && k < |readings| && (forall j :: 0 <= j < |readings| ==> readings[j].used <= readings[k].used)
    && forall j :: 0 <= j < k ==> readings[j].used < readings[k].used
  }

  ghost predicate FirstFull(readings: seq<Reading>, k: nat) {
    k < |readings| && readings[k].used >= 100.0 && forall j :: 0 <= j < k ==> readings[j].used < 100.0
  }

  predicate Exact(r: Reading) {
    MIN_SAMPLE_USED <= r.used < 100.0
  }

  /** Reading k is the last whose figure is exact. */
  ghost predicate LastExact(readings: seq<Reading>, k: nat) {
    k < |readings| && Exact(readings[k]) && forall j :: k < j < |readings| ==> !Exact(readings[j])
  }

  /** Percent per USD. */
  function Rate(used: real, cost: real): real
    requires cost > 0.0
  {
    used / cost
  }

  /** The sample the last exact reading gives, over what had been demanded by then. */
  ghost predicate SampleAt(w: Window, readings: seq<Reading>, demand: seq<Demand>, k: nat)
    requires k < |readings|
  {
    var cost := SumIn(demand, w.start, readings[k].observedAt + 1);
    if cost < MIN_SAMPLE_COST then w.excluded == LowCost && w.ratio == 0.0
    else w.excluded == NotExcluded && w.ratio == Rate(readings[k].used, cost)
  }

  ghost predicate IsSampled(w: Window, was: Excluded, readings: seq<Reading>, demand: seq<Demand>) {
    if was != NotExcluded then w.excluded == was && w.ratio == 0.0
    else if forall k :: 0 <= k < |readings| ==> !Exact(readings[k]) then w.excluded == NoSample && w.ratio == 0.0
    else exists k: nat :: LastExact(readings, k) && SampleAt(w, readings, demand, k)
  }

  /** w says of a window what its readings and the demand show of it. */
  ghost predicate IsMeasured(w: Window, from: Window, readings: seq<Reading>, demand: seq<Demand>) {
    && w.start == from.start && w.resetsAt == from.resetsAt && w.plan == from.plan
    && (exists k: nat ::
          && FirstHighest(readings, k) && w.maxUsed == readings[k].used && w.maxAt == Some(readings[k].observedAt)
          && w.costAtMax == SumIn(demand, w.start, readings[k].observedAt + 1))
    && (w.saturated <==> exists k :: 0 <= k < |readings| && readings[k].used >= 100.0)
    && (w.firstFull.Some? <==> w.saturated)
    && (w.saturated ==> exists k: nat :: FirstFull(readings, k) && w.firstFull == Some(readings[k].observedAt))
    && IsSampled(w, from.excluded, readings, demand)
  }

  /** measure. Every window has a reading. */
  method Measure(from: Window, readings: seq<Reading>, demand: seq<Demand>) returns (w: Window)
    requires readings != [] && InOrder(demand)
    requires from == NewWindow(from.start, from.resetsAt, from.plan, from.excluded)
    ensures IsMeasured(w, from, readings, demand)
  {
    hide SumIn, InOrder, FirstHighest, FirstFull, IsSampled;
    w := Highest(from, readings);
    var costAtMax := SumBetween(demand, w.start, w.maxAt.value);
    w := w.(costAtMax := costAtMax);
    w := TakeSample(w, readings, demand);
  }

  /** measure's sample, of a window not already excluded. */
  method TakeSample(from: Window, readings: seq<Reading>, demand: seq<Demand>) returns (w: Window)
    requires from.ratio == 0.0 && InOrder(demand)
    ensures w == from.(excluded := w.excluded, ratio := w.ratio) && IsSampled(w, from.excluded, readings, demand)
  {
    hide Rate, SumIn, InOrder;
    w := from;
    if w.excluded != NotExcluded {
      return;
    }
    var j := |readings| - 1;
    while j >= 0 && !Exact(readings[j])
      invariant -1 <= j < |readings|
      invariant forall k :: j < k < |readings| ==> !Exact(readings[k])
    {
      j := j - 1;
    }
    if j < 0 {
      w := w.(excluded := NoSample);
      return;
    }
    assert LastExact(readings, j);
    var cost := SumBetween(demand, w.start, readings[j].observedAt);
    w := if cost < MIN_SAMPLE_COST then w.(excluded := LowCost) else w.(ratio := Rate(readings[j].used, cost));
    assert SampleAt(w, readings, demand, j);
  }

  /** measure's first loop. */
  method Highest(from: Window, readings: seq<Reading>) returns (w: Window)
    requires readings != []
    requires from == NewWindow(from.start, from.resetsAt, from.plan, from.excluded)
    ensures w.start == from.start && w.resetsAt == from.resetsAt && w.plan == from.plan
    ensures w.excluded == from.excluded && w.ratio == 0.0
    ensures exists k: nat ::
              FirstHighest(readings, k) && w.maxUsed == readings[k].used && w.maxAt == Some(readings[k].observedAt)
    ensures w.saturated <==> exists k :: 0 <= k < |readings| && readings[k].used >= 100.0
    ensures w.firstFull.Some? <==> w.saturated
    ensures w.saturated ==> exists k: nat :: FirstFull(readings, k) && w.firstFull == Some(readings[k].observedAt)
  {
    w := from;
    ghost var top, full := 0, 0;
    for i := 0 to |readings|
      invariant w == from.(maxUsed := w.maxUsed, maxAt := w.maxAt, saturated := w.saturated, firstFull := w.firstFull)
      invariant i == 0 ==> w == from
      invariant i > 0 ==> 0 <= top < i && w.maxUsed == readings[top].used && w.maxAt == Some(readings[top].observedAt)
      invariant i > 0 ==> forall j :: 0 <= j < i ==> readings[j].used <= readings[top].used
      invariant i > 0 ==> forall j :: 0 <= j < top ==> readings[j].used < readings[top].used
      invariant !w.saturated ==> w.firstFull.None? && forall j :: 0 <= j < i ==> readings[j].used < 100.0
      invariant w.saturated ==>
          0 <= full < i && FirstFull(readings, full) && w.firstFull == Some(readings[full].observedAt)
    {
      var r := readings[i];
      if w.maxAt.None? || r.used > w.maxUsed {
        w := w.(maxUsed := r.used, maxAt := Some(r.observedAt));
        top := i;
      }
      if r.used >= 100.0 {
        if w.firstFull.None? {
          full := i;
        }
        w := w.(saturated := true, firstFull := if w.firstFull.None? then Some(r.observedAt) else w.firstFull);
      }
    }
    assert FirstHighest(readings, top);
  }

  /** A window gives a sample exactly when its ratio is set, and its ratio turns
      the demand recorded by its last exact reading into that reading's use. It
      takes a use of 5% to below 100%, and a demand of 5 USD by then. */
  lemma SampleIsExact(w: Window, from: Window, readings: seq<Reading>, demand: seq<Demand>)
    requires IsMeasured(w, from, readings, demand)
    ensures w.excluded == NotExcluded <==> w.ratio > 0.0
    ensures w.excluded == NotExcluded ==> exists k: nat :: LastExact(readings, k) && Explains(w, readings[k], demand)
  {
    hide Explains, SampleAt;
    if from.excluded == NotExcluded && exists k :: 0 <= k < |readings| && Exact(readings[k]) {
      var k: nat :| LastExact(readings, k) && SampleAt(w, readings, demand, k);
      SampleExplains(w, readings, demand, k);
    }
  }

  /** Some reading is of at least 5% and not yet of 100%. */
  ghost predicate HasExact(readings: seq<Reading>) {
    exists r :: r in readings && 5.0 <= r.used < 100.0
  }

  /** Why a window not already excluded gives no sample. */
  lemma NoSampleMeans(w: Window, from: Window, readings: seq<Reading>, demand: seq<Demand>)
    requires IsMeasured(w, from, readings, demand) && from.excluded == NotExcluded
    ensures w.excluded == NoSample <==> !HasExact(readings)
    ensures w.excluded == LowCost ==>
        exists k: nat :: LastExact(readings, k) && SumIn(demand, w.start, readings[k].observedAt + 1) < 5.0
    ensures w.excluded in {NotExcluded, NoSample, LowCost}
  {
    hide FirstHighest, FirstFull, SumIn, HasExact;
    assert IsSampled(w, NotExcluded, readings, demand);
    hide IsMeasured;
    ExactSomewhere(readings);
    if exists k :: 0 <= k < |readings| && Exact(readings[k]) {
      var k: nat :| LastExact(readings, k) && SampleAt(w, readings, demand, k);
    }
  }

  lemma ExactSomewhere(readings: seq<Reading>)
    ensures HasExact(readings) <==> exists k :: 0 <= k < |readings| && Exact(readings[k])
  {
    if r :| r in readings && 5.0 <= r.used < 100.0 {
      var i :| 0 <= i < |readings| && readings[i] == r;
      assert Exact(readings[i]);
    }
    if k :| 0 <= k < |readings| && Exact(readings[k]) {
      assert readings[k] in readings;
    }
  }

  lemma SampleExplains(w: Window, readings: seq<Reading>, demand: seq<Demand>, k: nat)
    requires k < |readings| && Exact(readings[k]) && SampleAt(w, readings, demand, k)
    ensures w.excluded == NotExcluded <==> w.ratio > 0.0
    ensures w.excluded == NotExcluded ==> Explains(w, readings[k], demand)
  {
    hide SumIn, Rate;
    var cost := SumIn(demand, w.start, readings[k].observedAt + 1);
    if cost >= MIN_SAMPLE_COST {
      RatePositive(readings[k].used, cost);
    }
  }

  /** The use read is between 5% and 100%, after at least 5 USD of demand. */
  ghost predicate Explains(w: Window, r: Reading, demand: seq<Demand>) {
    var cost := SumIn(demand, w.start, r.observedAt + 1);
    w.ratio * cost == r.used && 5.0 <= r.used < 100.0 && cost >= 5.0
  }

  lemma RatePositive(used: real, cost: real)
    requires used > 0.0 && cost > 0.0
    ensures Rate(used, cost) > 0.0 && Rate(used, cost) * cost == used
  {
  }

  // ---------------------------------------------------------- 5-hour windows

  /** The reset a group, oldest first, settles on: the newest reading's. */
  function ResetOf(group: seq<Reading>): Time
    requires group != []
  {
    RoundedReset(group[|group| - 1])
  }

  /** The window ran under the plan from its start to its last reading. */
  ghost predicate RanUnder(plan: string, group: seq<Reading>, planAt: (Time, string) -> string)
    requires group != []
  {
    && planAt(ResetOf(group) - FIVE_HOURS, group[0].plan) == plan
    && forall i :: 0 <= i < |group| ==> planAt(group[i].observedAt, group[i].plan) == plan
  }

  /** A window counts for a plan exactly when it ran under it, and is excluded
      when it ran under several or the one it ran under is not known. */
  ghost predicate IsFiveHourWindow(w: Window, group: seq<Reading>, planAt: (Time, string) -> string,
                                   demand: seq<Demand>)
    requires group != []
  {
    exists from: Window :: Starts(from, group, planAt) && IsMeasured(w, from, group, demand)
  }

  ghost predicate Starts(from: Window, group: seq<Reading>, planAt: (Time, string) -> string)
    requires group != []
  {
    && from == NewWindow(ResetOf(group) - FIVE_HOURS, ResetOf(group), from.plan, from.excluded)
    && (forall plan :: from.plan == plan != "" <==> RanUnder(plan, group, planAt) && plan != "")
    && (from.excluded == UnknownPlan <==> RanUnder("", group, planAt))
    && (from.excluded == PlanChanged <==> forall plan :: !RanUnder(plan, group, planAt))
    && from.excluded in {NotExcluded, UnknownPlan, PlanChanged}
  }

  method FiveHourWindow(group: seq<Reading>, planAt: (Time, string) -> string, demand: seq<Demand>) returns (w: Window)
    requires group != [] && InOrder(demand)
    ensures IsFiveHourWindow(w, group, planAt, demand)
  {
    var resets := ResetOf(group);
    var from := NewWindow(resets - FIVE_HOURS, resets, "", NotExcluded);
    var plan := planAt(from.start, group[0].plan);
    ghost var first := plan;
    for i := 0 to |group|
      invariant plan == first && from.excluded == NotExcluded
      invariant forall j :: 0 <= j < i ==> planAt(group[j].observedAt, group[j].plan) == first
    {
      if planAt(group[i].observedAt, group[i].plan) != plan {
        plan := "";
        from := from.(excluded := PlanChanged);
        assert forall plan :: !RanUnder(plan, group, planAt);
        break;
      }
    }
    if from.excluded == NotExcluded {
      assert RanUnder(first, group, planAt);
      if plan == "" {
        from := from.(excluded := UnknownPlan);
      } else {
        from := from.(plan := plan);
      }
    }
    hide IsMeasured;
    w := Measure(from, group, demand);
  }

  method FiveHourWindows(readings: seq<Reading>, planAt: (Time, string) -> string, demand: seq<Demand>)
    returns (out: seq<Window>)
    requires InOrder(demand)
    ensures var groups := Groups(readings);
            |out| == |groups| && forall k :: 0 <= k < |out| ==>
                groups[k] != [] && IsFiveHourWindow(out[k], groups[k], planAt, demand)
  {
    var groups := GroupByReset(readings);
    GroupsPartition(readings);
    out := [];
    hide InOrder, IsFiveHourWindow, Groups;
    for k := 0 to |groups|
      invariant |out| == k
      invariant forall j :: 0 <= j < k ==> groups[j] != [] && IsFiveHourWindow(out[j], groups[j], planAt, demand)
    {
      var w := FiveHourWindow(groups[k], planAt, demand);
      out := out + [w];
    }
  }

  // ----------------------------------------------------------- weekly windows

  /** The readings of a group under one plan interval, or under none. */
  datatype Span = Span(interval: Option<PlanInterval>, readings: seq<Reading>)

  ghost predicate DistinctIds(intervals: seq<PlanInterval>) {
    forall a, b :: a in intervals && b in intervals && a.id == b.id ==> a == b
  }

  /** A saved history's intervals do. */
  lemma HistoryHasDistinctIds(intervals: seq<PlanInterval>, table: Table, accountId: string)
    requires IsHistoryOf(intervals, table, accountId)
    ensures DistinctIds(intervals)
  {
    forall a, b | a in intervals && b in intervals && a.id == b.id ensures a == b {
      assert table[a.id] == a && table[b.id] == b;
    }
  }

  /** The readings under an interval, in order. */
  function ReadUnder(group: seq<Reading>, intervals: seq<PlanInterval>, interval: Option<PlanInterval>): seq<Reading> {
    if group == [] then []
    else
      var r := group[|group| - 1];
      ReadUnder(group[..|group| - 1], intervals, interval)
      + (if Covering(intervals, r.observedAt) == interval then [r] else [])
  }

  function ReadingsOf(spans: seq<Span>): (rs: seq<seq<Reading>>)
    ensures |rs| == |spans| && forall i :: 0 <= i < |rs| ==> rs[i] == spans[i].readings
  {
    seq(|spans|, i requires 0 <= i < |spans| => spans[i].readings)
  }

  lemma {:induction false} UnderInterval(group: seq<Reading>, intervals: seq<PlanInterval>,
                                         interval: Option<PlanInterval>, r: Reading)
    ensures r in ReadUnder(group, intervals, interval) <==> r in group && Covering(intervals, r.observedAt) == interval
  {
    if group != [] {
      UnderInterval(group[..|group| - 1], intervals, interval, r);
    }
  }

  /** The spans hold each reading of the group once. */
  ghost predicate Exhaust(spans: seq<Span>, group: seq<Reading>) {
    multiset(Flatten(ReadingsOf(spans))) == multiset(group)
  }

  /** A span has the readings under its interval. */
  ghost predicate FollowIntervals(spans: seq<Span>, group: seq<Reading>, intervals: seq<PlanInterval>) {
    forall i :: 0 <= i < |spans| ==>
        spans[i].readings != [] && spans[i].readings == ReadUnder(group, intervals, spans[i].interval)
  }

  ghost predicate Differ(spans: seq<Span>, intervals: seq<PlanInterval>) {
    && (forall i, j :: 0 <= i < j < |spans| ==> spans[i].interval != spans[j].interval)
    && (forall i :: 0 <= i < |spans| && spans[i].interval.Some? ==> spans[i].interval.value in intervals)
  }

  /** Each reading is in exactly one span: that of its plan interval. */
  ghost predicate AreSpans(spans: seq<Span>, group: seq<Reading>, intervals: seq<PlanInterval>) {
    Exhaust(spans, group) && FollowIntervals(spans, group, intervals) && Differ(spans, intervals)
  }

  predicate SameInterval(a: Option<PlanInterval>, b: Option<PlanInterval>) {
    a.Some? == b.Some? && (a.Some? ==> a.value.id == b.value.id)
  }

  method FindSpan(spans: seq<Span>, interval: Option<PlanInterval>) returns (i: nat)
    ensures i <= |spans| && (i < |spans| ==> SameInterval(spans[i].interval, interval))
    ensures forall j :: 0 <= j < i ==> !SameInterval(spans[j].interval, interval)
  {
    i := 0;
    while i < |spans| && !SameInterval(spans[i].interval, interval)
      invariant i <= |spans| && forall j :: 0 <= j < i ==> !SameInterval(spans[j].interval, interval)
    {
      i := i + 1;
    }
  }

  lemma ReadUnderOneMore(group: seq<Reading>, r: Reading, intervals: seq<PlanInterval>, interval: Option<PlanInterval>)
    ensures ReadUnder(group + [r], intervals, interval)
         == ReadUnder(group, intervals, interval) + if Covering(intervals, r.observedAt) == interval then [r] else []
  {
    assert (group + [r])[..|group|] == group;
  }

  lemma {:induction false} NoneUnder(group: seq<Reading>, intervals: seq<PlanInterval>, interval: Option<PlanInterval>)
    requires forall r :: r in group ==> Covering(intervals, r.observedAt) != interval
    ensures ReadUnder(group, intervals, interval) == []
  {
    if group != [] {
      NoneUnder(group[..|group| - 1], intervals, interval);
    }
  }

  lemma SpanGrows(spans: seq<Span>, group: seq<Reading>, r: Reading, intervals: seq<PlanInterval>, i: nat)
    requires AreSpans(spans, group, intervals) && i < |spans| && spans[i].interval == Covering(intervals, r.observedAt)
    ensures AreSpans(spans[i := spans[i].(readings := spans[i].readings + [r])], group + [r], intervals)
  {
    hide Covering, ReadUnder, Flatten;
    var after := spans[i := spans[i].(readings := spans[i].readings + [r])];
    assert Exhaust(after, group + [r]) by {
      hide FollowIntervals, Differ;
      assert ReadingsOf(after) == ReadingsOf(spans)[i := ReadingsOf(spans)[i] + [r]];
      FlattenAppendTo(ReadingsOf(spans), i, r);
    }
    hide Exhaust, ReadingsOf;
    forall j | 0 <= j < |spans| ensures after[j].readings == ReadUnder(group + [r], intervals, after[j].interval) {
      ReadUnderOneMore(group, r, intervals, spans[j].interval);
    }
  }

  /** Readings whose interval has no span are not in the group yet. */
  lemma NoSpanYet(spans: seq<Span>, group: seq<Reading>, intervals: seq<PlanInterval>, interval: Option<PlanInterval>)
    requires AreSpans(spans, group, intervals) && forall i :: 0 <= i < |spans| ==> spans[i].interval != interval
    ensures ReadUnder(group, intervals, interval) == []
  {
    hide Covering, Flatten, ReadUnder;
    forall x | x in group ensures Covering(intervals, x.observedAt) != interval {
      SameMembers(Flatten(ReadingsOf(spans)), group);
      var k := InFlatten(ReadingsOf(spans), x);
      UnderInterval(group, intervals, spans[k].interval, x);
    }
    NoneUnder(group, intervals, interval);
  }

  lemma FlattenSnoc<T>(groups: seq<seq<T>>, group: seq<T>)
    ensures Flatten(groups + [group]) == Flatten(groups) + group
  {
    FlattenConcat(groups, [group]);
    FlattenOne(group);
  }

  lemma SpanOpens(spans: seq<Span>, group: seq<Reading>, r: Reading, intervals: seq<PlanInterval>)
    requires AreSpans(spans, group, intervals)
    requires forall i :: 0 <= i < |spans| ==> spans[i].interval != Covering(intervals, r.observedAt)
    ensures AreSpans(spans + [Span(Covering(intervals, r.observedAt), [r])], group + [r], intervals)
  {
    var interval := Covering(intervals, r.observedAt);
    var after := spans + [Span(interval, [r])];
    hide Covering, ReadUnder, Flatten, ReadingsOf;
    NoSpanYet(spans, group, intervals, interval);
    assert Exhaust(after, group + [r]) by {
      hide FollowIntervals, Differ;
      OpenedFlatten(spans, group, Span(interval, [r]));
    }
    hide Exhaust;
    assert FollowIntervals(after, group + [r], intervals) by {
      hide Differ;
      forall j | 0 <= j < |after| ensures after[j].readings == ReadUnder(group + [r], intervals, after[j].interval) {
        ReadUnderOneMore(group, r, intervals, after[j].interval);
      }
    }
  }

  lemma OpenedFlatten(spans: seq<Span>, group: seq<Reading>, span: Span)
    requires multiset(Flatten(ReadingsOf(spans))) == multiset(group)
    ensures multiset(Flatten(ReadingsOf(spans + [span]))) == multiset(group + span.readings)
  {
    hide Flatten;
    assert ReadingsOf(spans + [span]) == ReadingsOf(spans) + [span.readings];
    FlattenSnoc(ReadingsOf(spans), span.readings);
  }

  /** Ids tell the spans' intervals apart. */
  lemma IdsTell(spans: seq<Span>, group: seq<Reading>, intervals: seq<PlanInterval>, t: Time)
    requires AreSpans(spans, group, intervals) && DistinctIds(intervals)
    ensures forall i :: 0 <= i < |spans| ==>
        (SameInterval(spans[i].interval, Covering(intervals, t)) <==> spans[i].interval == Covering(intervals, t))
  {
  }

  lemma NoSpans(group: seq<Reading>, intervals: seq<PlanInterval>)
    ensures AreSpans([], group[..0], intervals)
  {
    assert ReadingsOf([]) == [];
  }

  /** The spans of a group, in the order its readings open them. */
  method SpansOf(group: seq<Reading>, intervals: seq<PlanInterval>) returns (spans: seq<Span>)
    requires DistinctIds(intervals)
    ensures AreSpans(spans, group, intervals) && Exhaust(spans, group)
  {
    spans := [];
    NoSpans(group, intervals);
    hide AreSpans, SameInterval, DistinctIds, Covering;
    for n := 0 to |group|
      invariant AreSpans(spans, group[..n], intervals)
    {
      var r := group[n];
      var interval := IntervalAt(intervals, r.observedAt);
      var i := FindSpan(spans, interval);
      IdsTell(spans, group[..n], intervals, r.observedAt);
      assert group[..n + 1] == group[..n] + [r];
      if i == |spans| {
        SpanOpens(spans, group[..n], r, intervals);
        spans := spans + [Span(interval, [r])];
      } else {
        SpanGrows(spans, group[..n], r, intervals, i);
        spans := spans[i := spans[i].(readings := spans[i].readings + [r])];
      }
    }
    assert group[..|group|] == group;
    AreExhausted(spans, group, intervals);
  }

  lemma AreExhausted(spans: seq<Span>, group: seq<Reading>, intervals: seq<PlanInterval>)
    requires AreSpans(spans, group, intervals)
    ensures Exhaust(spans, group)
  {
  }

  /** Where a span's window starts: with its plan interval, when that began within the week. */
  function WeeklyStart(resets: Time, interval: Option<PlanInterval>): Time {
    if interval.Some? then Max(resets - WEEK, interval.value.effectiveAt) else resets - WEEK
  }

  ghost predicate IsWeeklyWindow(w: Window, span: Span, group: seq<Reading>, normalize: string -> string,
                                 demand: seq<Demand>)
    requires group != []
  {
    var known := span.interval.Some?;
    IsMeasured(w, NewWindow(WeeklyStart(ResetOf(group), span.interval), ResetOf(group),
                            if known then normalize(span.interval.value.planType) else "",
                            if known then NotExcluded else UnknownPlan),
               span.readings, demand)
  }

  method WeeklyWindow(span: Span, group: seq<Reading>, normalize: string -> string,
                      demand: seq<Demand>) returns (w: Window)
    requires group != [] && span.readings != [] && InOrder(demand)
    ensures IsWeeklyWindow(w, span, group, normalize, demand)
  {
    hide IsMeasured;
    var resets := ResetOf(group);
    var from := NewWindow(resets - WEEK, resets, "", NotExcluded);
    if span.interval.Some? {
      from := from.(plan := normalize(span.interval.value.planType));
      if span.interval.value.effectiveAt > from.start {
        from := from.(start := span.interval.value.effectiveAt);
      }
    } else {
      from := from.(excluded := UnknownPlan);
    }
    w := Measure(from, span.readings, demand);
  }

  /** Which group a window and its span are of. */
  ghost predicate IsOf(w: Window, span: Span, groups: seq<seq<Reading>>, intervals: seq<PlanInterval>,
                       normalize: string -> string,
                       demand: seq<Demand>)
  {
    exists k :: 0 <= k < |groups| && groups[k] != []
      && span.readings == ReadUnder(groups[k], intervals, span.interval)
      && IsWeeklyWindow(w, span, groups[k], normalize, demand)
  }

  ghost predicate AreOf(out: seq<Window>, spans: seq<Span>, groups: seq<seq<Reading>>, intervals: seq<PlanInterval>,
                        normalize: string -> string, demand: seq<Demand>)
  {
    |out| == |spans| && forall i :: 0 <= i < |out| ==> IsOf(out[i], spans[i], groups, intervals, normalize, demand)
  }

  lemma OfConcat(out: seq<Window>, spans: seq<Span>, ws: seq<Window>, part: seq<Span>, groups: seq<seq<Reading>>,
                 intervals: seq<PlanInterval>, normalize: string -> string, demand: seq<Demand>)
    requires AreOf(out, spans, groups, intervals, normalize, demand)
        && AreOf(ws, part, groups, intervals, normalize, demand)
    ensures AreOf(out + ws, spans + part, groups, intervals, normalize, demand)
  {
    hide IsOf;
  }

  method WindowsOfGroups(groups: seq<seq<Reading>>, intervals: seq<PlanInterval>, normalize: string -> string,
                         demand: seq<Demand>)
    returns (out: seq<Window>, ghost spans: seq<Span>)
    requires DistinctIds(intervals) && InOrder(demand) && forall k :: 0 <= k < |groups| ==> groups[k] != []
    ensures Exhaust(spans, Flatten(groups)) && AreOf(out, spans, groups, intervals, normalize, demand)
  {
    out, spans := [], [];
    assert ReadingsOf(spans) == [];
    assert Exhaust(spans, Flatten(groups[..0]));
    hide InOrder, DistinctIds, IsWeeklyWindow, ReadUnder, IsOf, AreOf, ReadingsOf, Flatten, AreSpans, Exhaust;
    for k := 0 to |groups|
      invariant Exhaust(spans, Flatten(groups[..k])) && AreOf(out, spans, groups, intervals, normalize, demand)
    {
      var part := SpansOf(groups[k], intervals);
      var ws := GroupWindows(part, groups, k, intervals, normalize, demand);
      PartJoins(spans, part, groups, k);
      OfConcat(out, spans, ws, part, groups, intervals, normalize, demand);
      out := out + ws;
      spans := spans + part;
    }
    assert groups[..|groups|] == groups;
  }

  /** Each reading is in exactly one window: no reading is lost, none is
      counted twice, and a window's readings share its reset group and its plan
      interval. */
  method WeeklyWindows(readings: seq<Reading>, intervals: seq<PlanInterval>, normalize: string -> string,
                       demand: seq<Demand>)
    returns (out: seq<Window>)
    requires DistinctIds(intervals) && InOrder(demand)
    ensures exists spans ::
              Exhaust(spans, readings) && AreOf(out, spans, Groups(readings), intervals, normalize, demand)
  {
    var groups := GroupByReset(readings);
    GroupsPartition(readings);
    hide InOrder, Groups, DistinctIds, AreOf, ReadingsOf, Flatten;
    ghost var spans;
    out, spans := WindowsOfGroups(groups, intervals, normalize, demand);
    assert Exhaust(spans, readings);
  }

  /** The windows of an account's saved plan history. */
  method HistoryWindows(readings: seq<Reading>, intervals: seq<PlanInterval>, ghost table: Table,
      ghost accountId: string,
                        normalize: string -> string, demand: seq<Demand>)
    returns (out: seq<Window>)
    requires IsHistoryOf(intervals, table, accountId) && InOrder(demand)
    ensures exists spans ::
              Exhaust(spans, readings) && AreOf(out, spans, Groups(readings), intervals, normalize, demand)
  {
    HistoryHasDistinctIds(intervals, table, accountId);
    out := WeeklyWindows(readings, intervals, normalize, demand);
  }

  lemma PartJoins(spans: seq<Span>, part: seq<Span>, groups: seq<seq<Reading>>, k: nat)
    requires k < |groups| && Exhaust(part, groups[k]) && Exhaust(spans, Flatten(groups[..k]))
    ensures Exhaust(spans + part, Flatten(groups[..k + 1]))
  {
    hide Flatten;
    assert ReadingsOf(spans + part) == ReadingsOf(spans) + ReadingsOf(part);
    FlattenConcat(ReadingsOf(spans), ReadingsOf(part));
    assert groups[..k + 1] == groups[..k] + [groups[k]];
    FlattenSnoc(groups[..k], groups[k]);
  }

  method GroupWindows(part: seq<Span>, groups: seq<seq<Reading>>, k: nat, intervals: seq<PlanInterval>,
                      normalize: string -> string, demand: seq<Demand>) returns (ws: seq<Window>)
    requires k < |groups| && groups[k] != [] && AreSpans(part, groups[k], intervals) && InOrder(demand)
    ensures AreOf(ws, part, groups, intervals, normalize, demand)
  {
    ws := [];
    hide InOrder, IsWeeklyWindow, ReadUnder;
    for i := 0 to |part|
      invariant |ws| == i
      invariant forall j :: 0 <= j < i ==> IsOf(ws[j], part[j], groups, intervals, normalize, demand)
    {
      var w := WeeklyWindow(part[i], groups[k], normalize, demand);
      ws := ws + [w];
    }
  }

  /** A weekly window starts a week before its reset, or with its plan interval
      when that began later, and every one of its readings was made under that
      interval, whose plan it names; without an interval it names none and
      gives no sample. */
  lemma WeeklyWindowStarts(w: Window, span: Span, groups: seq<seq<Reading>>, intervals: seq<PlanInterval>,
                           normalize: string -> string, demand: seq<Demand>, r: Reading)
    requires IsOf(w, span, groups, intervals, normalize, demand) && r in span.readings
    ensures Covering(intervals, r.observedAt) == span.interval && w.start >= w.resetsAt - 604_800_000_000_000
    ensures span.interval.Some? ==>
        var plan := span.interval.value;
        && Covers(plan, r.observedAt) && w.plan == normalize(plan.planType)
        && w.start >= plan.effectiveAt && w.start in {w.resetsAt - 604_800_000_000_000, plan.effectiveAt}
    ensures span.interval.None? ==>
        w.start == w.resetsAt - 604_800_000_000_000 && w.plan == "" && w.excluded == UnknownPlan && w.ratio == 0.0
  {
    var k :| 0 <= k < |groups| && groups[k] != []
      && span.readings == ReadUnder(groups[k], intervals, span.interval)
      && IsWeeklyWindow(w, span, groups[k], normalize, demand);
    UnderInterval(groups[k], intervals, span.interval, r);
  }

  /** A weekly window ends at the newest reset of a group that holds all its readings. */
  lemma WeeklyWindowEnds(w: Window, span: Span, readings: seq<Reading>, intervals: seq<PlanInterval>,
                         normalize: string -> string, demand: seq<Demand>) returns (k: nat)
    requires IsOf(w, span, Groups(readings), intervals, normalize, demand)
    ensures k < |Groups(readings)| && NewestReset(w.resetsAt, Groups(readings)[k])
    ensures forall r :: r in span.readings <==>
        r in Groups(readings)[k] && Covering(intervals, r.observedAt) == span.interval
  {
    hide Groups, NewestReset, ReadUnder, Covering;
    k :| 0 <= k < |Groups(readings)| && Groups(readings)[k] != []
      && span.readings == ReadUnder(Groups(readings)[k], intervals, span.interval)
      && IsWeeklyWindow(w, span, Groups(readings)[k], normalize, demand);
    GroupsReset(readings, k);
    forall r ensures r in span.readings <==>
        r in Groups(readings)[k] && Covering(intervals, r.observedAt) == span.interval {
      UnderInterval(Groups(readings)[k], intervals, span.interval, r);
    }
  }

  // ------------------------------------------------------ what windows mean

  /** No reading of the group is newer than r. */
  ghost predicate Newest(r: Reading, group: seq<Reading>) {
    r in group && forall x :: x in group ==> x.observedAt <= r.observedAt
  }

  /** The reset is what a newest reading of the group reports, to the minute. */
  ghost predicate NewestReset(resets: Time, group: seq<Reading>) {
    exists r :: Newest(r, group) && ToTheMinute(resets, r.resetsAt)
  }

  lemma ResetIsNewest(group: seq<Reading>)
    requires group != [] && SortedBy(group, ObservedTime)
    ensures NewestReset(ResetOf(group), group)
  {
    var r := group[|group| - 1];
    RoundedIsNearest(r.resetsAt);
    hide RoundToMinute;
    forall x | x in group ensures x.observedAt <= r.observedAt {
      var i :| 0 <= i < |group| && group[i] == x;
      assert i < |group| - 1 ==> ObservedTime(group[i]) <= ObservedTime(r);
    }
    assert Newest(r, group);
  }

  lemma GroupsReset(readings: seq<Reading>, k: nat)
    requires k < |Groups(readings)|
    ensures Groups(readings)[k] != []
    ensures NewestReset(ResetOf(Groups(readings)[k]), Groups(readings)[k])
  {
    GroupsPartition(readings);
    hide Groups, NewestReset, ResetOf;
    ResetIsNewest(Groups(readings)[k]);
  }

  ghost predicate ReadAllUnder(plan: string, group: seq<Reading>, planAt: (Time, string) -> string) {
    forall r :: r in group ==> planAt(r.observedAt, r.plan) == plan
  }

  /** The plan in force at the start: it is the window's when every reading was
      made under it too, and it is known; otherwise the window has none, and
      says why. */
  ghost predicate TellsPlan(plan: string, excluded: Excluded, start: Time, group: seq<Reading>,
                            planAt: (Time, string) -> string)
    requires group != []
  {
    var first := planAt(start, group[0].plan);
    if !ReadAllUnder(first, group, planAt) then plan == "" && excluded == PlanChanged
    else if first == "" then plan == "" && excluded == UnknownPlan
    else plan == first && excluded !in {PlanChanged, UnknownPlan}
  }

  /** A five-hour window ends at its newest reading's reset and starts five
      hours before it, and gives a sample only of a plan it ran under throughout. */
  lemma FiveHourWindowMeans(w: Window, readings: seq<Reading>, k: nat, planAt: (Time, string) -> string,
                            demand: seq<Demand>)
    requires k < |Groups(readings)| && Groups(readings)[k] != []
        && IsFiveHourWindow(w, Groups(readings)[k], planAt, demand)
    ensures NewestReset(w.resetsAt, Groups(readings)[k]) && w.start == w.resetsAt - 18_000_000_000_000
    ensures TellsPlan(w.plan, w.excluded, w.start, Groups(readings)[k], planAt) && (w.plan == "" ==> w.ratio == 0.0)
  {
    GroupsReset(readings, k);
    var group := Groups(readings)[k];
    hide Groups, NewestReset, IsFiveHourWindow, ResetOf, TellsPlan;
    FiveHourPlan(w, group, planAt, demand);
  }

  lemma FiveHourPlan(w: Window, group: seq<Reading>, planAt: (Time, string) -> string, demand: seq<Demand>)
    requires group != [] && IsFiveHourWindow(w, group, planAt, demand)
    ensures w.resetsAt == ResetOf(group) && w.start == w.resetsAt - FIVE_HOURS
    ensures TellsPlan(w.plan, w.excluded, w.start, group, planAt) && (w.plan == "" ==> w.ratio == 0.0)
  {
    hide ResetOf, Starts, FirstHighest, FirstFull, ReadAllUnder;
    var from: Window :| Starts(from, group, planAt) && IsMeasured(w, from, group, demand);
    StartsUnder(from, group, planAt);
    if from.excluded == NotExcluded {
      NoSampleMeans(w, from, group, demand);
    }
  }

  lemma StartsUnder(from: Window, group: seq<Reading>, planAt: (Time, string) -> string)
    requires group != [] && Starts(from, group, planAt)
    ensures from == NewWindow(ResetOf(group) - FIVE_HOURS, ResetOf(group), from.plan, from.excluded)
    ensures TellsPlan(from.plan, from.excluded, from.start, group, planAt)
    ensures from.excluded == NotExcluded <==> from.plan != ""
  {
    hide ResetOf, RanUnder;
    RanUnderIs(from.plan, group, planAt);
    RanUnderIs("", group, planAt);
    RanUnderIs(planAt(from.start, group[0].plan), group, planAt);
    hide ReadAllUnder;
    if plan :| RanUnder(plan, group, planAt) {
      RanUnderIs(plan, group, planAt);
    }
  }

  lemma RanUnderIs(plan: string, group: seq<Reading>, planAt: (Time, string) -> string)
    requires group != []
    ensures RanUnder(plan, group, planAt)
        <==> planAt(ResetOf(group) - FIVE_HOURS, group[0].plan) == plan && ReadAllUnder(plan, group, planAt)
  {
    hide ResetOf;
    if RanUnder(plan, group, planAt) {
      forall r | r in group ensures planAt(r.observedAt, r.plan) == plan {
        var i :| 0 <= i < |group| && group[i] == r;
      }
    }
  }

  /** t is the earliest time at which a reading of the group used at least so much. */
  ghost predicate EarliestAt(t: Time, group: seq<Reading>, used: real) {
    && (exists r :: r in group && r.observedAt == t && r.used >= used)
    && forall r :: r in group && r.used >= used ==> t <= r.observedAt
  }

  /** Of readings oldest first, a window names the highest use and when it was
      first reached, and says it was full, and since when, exactly when the
      highest use is at least 100%. */
  lemma MeasuredMeans(w: Window, from: Window, readings: seq<Reading>, demand: seq<Demand>)
    requires IsMeasured(w, from, readings, demand) && SortedBy(readings, ObservedTime)
    ensures forall r :: r in readings ==> r.used <= w.maxUsed
    ensures w.maxAt.Some? && EarliestAt(w.maxAt.value, readings, w.maxUsed)
        && w.costAtMax == SumIn(demand, w.start, w.maxAt.value + 1)
    ensures w.saturated <==> w.maxUsed >= 100.0
    ensures if w.saturated then w.firstFull.Some? && EarliestAt(w.firstFull.value, readings, 100.0)
            else w.firstFull.None?
  {
    hide SumIn, IsSampled, EarliestAt, SortedBy;
    var k: nat :| && FirstHighest(readings, k) && w.maxUsed == readings[k].used
      && w.maxAt == Some(readings[k].observedAt) && w.costAtMax == SumIn(demand, w.start, readings[k].observedAt + 1);
    HighestMeans(readings, k);
    if w.saturated {
      var m: nat :| FirstFull(readings, m) && w.firstFull == Some(readings[m].observedAt);
      FullMeans(readings, m);
    }
    SaturatedMeans(w, from, readings, demand);
    hide IsMeasured;
  }

  lemma SaturatedMeans(w: Window, from: Window, readings: seq<Reading>, demand: seq<Demand>)
    requires IsMeasured(w, from, readings, demand)
    ensures w.saturated <==> w.maxUsed >= 100.0
  {
    hide SumIn, IsSampled, FirstFull;
    var k: nat :| && FirstHighest(readings, k) && w.maxUsed == readings[k].used
      && w.maxAt == Some(readings[k].observedAt) && w.costAtMax == SumIn(demand, w.start, readings[k].observedAt + 1);
    if w.saturated {
      var j :| 0 <= j < |readings| && readings[j].used >= 100.0;
      assert readings[j].used <= readings[k].used;
    }
  }

  lemma OlderBefore(readings: seq<Reading>, k: nat, r: Reading)
    requires k < |readings| && SortedBy(readings, ObservedTime) && r in readings
    requires forall j :: 0 <= j < k ==> readings[j] != r
    ensures readings[k].observedAt <= r.observedAt
  {
    var i :| 0 <= i < |readings| && readings[i] == r;
    assert k < i ==> ObservedTime(readings[k]) <= ObservedTime(readings[i]);
  }

  lemma HighestMeans(readings: seq<Reading>, k: nat)
    requires FirstHighest(readings, k) && SortedBy(readings, ObservedTime)
    ensures EarliestAt(readings[k].observedAt, readings, readings[k].used)
    ensures forall r :: r in readings ==> r.used <= readings[k].used
  {
    hide SortedBy;
    assert readings[k] in readings;
    forall r | r in readings && r.used >= readings[k].used ensures readings[k].observedAt <= r.observedAt {
      OlderBefore(readings, k, r);
    }
  }

  lemma FullMeans(readings: seq<Reading>, k: nat)
    requires FirstFull(readings, k) && SortedBy(readings, ObservedTime)
    ensures EarliestAt(readings[k].observedAt, readings, 100.0)
  {
    hide SortedBy;
    assert readings[k] in readings;
    forall r | r in readings && r.used >= 100.0 ensures readings[k].observedAt <= r.observedAt {
      OlderBefore(readings, k, r);
    }
  }

  /** A reading whose figure is exact gives the sample only if none after it does. */
  lemma SampleIsNewest(w: Window, from: Window, readings: seq<Reading>, demand: seq<Demand>)
    requires IsMeasured(w, from, readings, demand) && SortedBy(readings, ObservedTime) && w.excluded == NotExcluded
    ensures exists r :: NewestExact(r, readings) && Explains(w, r, demand)
  {
    SampleIsExact(w, from, readings, demand);
    hide IsMeasured, Explains, LastExact, SortedBy, NewestExact;
    var k: nat :| LastExact(readings, k) && Explains(w, readings[k], demand);
    LastIsNewest(readings, k);
  }

  ghost predicate NewestExact(r: Reading, readings: seq<Reading>) {
    r in readings && forall x :: x in readings && 5.0 <= x.used < 100.0 ==> x.observedAt <= r.observedAt
  }

  lemma LastIsNewest(readings: seq<Reading>, k: nat)
    requires LastExact(readings, k) && SortedBy(readings, ObservedTime)
    ensures NewestExact(readings[k], readings)
  {
    assert readings[k] in readings;
    forall x | x in readings && 5.0 <= x.used < 100.0 ensures x.observedAt <= readings[k].observedAt {
      var i :| 0 <= i < |readings| && readings[i] == x;
      assert i < k ==> ObservedTime(readings[i]) <= ObservedTime(readings[k]);
    }
  }
}
