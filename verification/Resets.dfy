/** The reset marks of an account's timeline: pastResets and the reset part of
    timeline in internal/server/query/overview.go. */
module Resets {
  import opened Records
  import opened Sorting
  import opened LatestQuota

  /** A reading that shows its window running, with its reset to the minute. */
  datatype Running = Running(observed: Time, resets: Time, window: Time)

  /** How far into a window a reading must be for its reset to count. */
  const RESET_STARTED: Time := 2 * MINUTE

  predicate IsRunning(b: Bucket, key: string, observed: Time) {
    && b.key == key && b.resetsAt.Some? && b.windowMinutes.Some?
    && b.resetsAt.value - observed <= b.windowMinutes.value * MINUTE - RESET_STARTED
  }

  function RunningOf(buckets: seq<Bucket>, key: string, observed: Time): seq<Running> {
    if buckets == [] then []
    else
      var b := buckets[|buckets| - 1];
      var before := RunningOf(buckets[..|buckets| - 1], key, observed);
      if IsRunning(b, key, observed)
      then before + [Running(observed, RoundToMinute(b.resetsAt.value), b.windowMinutes.value * MINUTE)] else before
  }

  function Readings(snaps: seq<Snapshot>, key: string): seq<Running> {
    if snaps == [] then []
    else
      var s := snaps[|snaps| - 1];
      Readings(snaps[..|snaps| - 1], key) + RunningOf(s.buckets, key, s.observedAt)
  }

  // ------------------------------------------------------------------ evidence

  /** How many readings report the reset. */
  function Support(rs: seq<Running>, at: Time): nat {
    if rs == [] then 0 else Support(rs[..|rs| - 1], at) + if rs[|rs| - 1].resets == at then 1 else 0
  }

  /** The reading was taken before the reset and shows a window still running past it. */
  predicate Contradicts(r: Running, at: Time, merge: Time) {
    r.observed < at && r.resets - at > merge && r.resets - r.window < at
  }

  function Against(rs: seq<Running>, at: Time, merge: Time): nat {
    if rs == [] then 0 else Against(rs[..|rs| - 1], at, merge) + if Contradicts(rs[|rs| - 1], at, merge) then 1 else 0
  }

  function Reported(rs: seq<Running>, start: Time, end: Time): set<Time> {
    set r | r in rs && start < r.resets <= end :: r.resets
  }

  /** No more readings contradict the reset than report it. */
  predicate Upheld(rs: seq<Running>, at: Time, merge: Time) {
    Support(rs, at) >= Against(rs, at, merge)
  }

  function UpheldOf(ats: set<Time>, rs: seq<Running>, merge: Time): set<Time> {
    set at | at in ats && Upheld(rs, at, merge)
  }

  /** The resets that count: within (start, end], reported, and not outvoted. */
  function Counting(rs: seq<Running>, start: Time, end: Time, merge: Time): set<Time> {
    UpheldOf(Reported(rs, start, end), rs, merge)
  }

  function Itself(at: Time): int { at }

  // ------------------------------------------------------------------- merging

  datatype Merging = Merging(out: seq<Time>, best: nat)

  /** Takes the next reset in time order: one closer than merge to the last
      mark is the same reset, and moves the mark when it is no less reported. */
  function Take(m: Merging, at: Time, support: nat, merge: Time): Merging {
    var n := |m.out|;
    if n > 0 && at - m.out[n - 1] < merge then
      if support >= m.best then Merging(m.out[n - 1 := at], support) else m
    else Merging(m.out + [at], support)
  }

  function Marks(kept: seq<Time>, rs: seq<Running>, merge: Time): Merging {
    if kept == [] then Merging([], 0)
    else
      var at := kept[|kept| - 1];
      Take(Marks(kept[..|kept| - 1], rs, merge), at, Support(rs, at), merge)
  }

  /** What pastResets answers. */
  ghost predicate ArePastResets(out: seq<Time>, rs: seq<Running>, start: Time, end: Time, merge: Time) {
    exists kept :: Lists(kept, Counting(rs, start, end, merge), Itself) && out == Marks(kept, rs, merge).out
  }

  lemma SupportOneMore(rs: seq<Running>, r: Running, at: Time)
    ensures Support(rs + [r], at) == Support(rs, at) + if r.resets == at then 1 else 0
  {
    assert (rs + [r])[..|rs|] == rs;
  }

  lemma {:induction false} Supported(rs: seq<Running>, at: Time)
    ensures Support(rs, at) > 0 <==> exists r :: r in rs && r.resets == at
  {
    if rs != [] {
      var n := |rs| - 1;
      Supported(rs[..n], at);
      assert rs == rs[..n] + [rs[n]];
      if rs[n].resets == at {
        assert rs[n] in rs;
      }
    }
  }

  /** The map of the first loop: how often each reset within the span is reported. */
  ghost predicate Counts(support: map<Time, nat>, rs: seq<Running>, start: Time, end: Time) {
    && support.Keys == Reported(rs, start, end)
    && forall at :: at in support ==> support[at] == Support(rs, at)
  }

  lemma CountsOneMore(support: map<Time, nat>, rs: seq<Running>, r: Running, start: Time, end: Time)
    requires Counts(support, rs, start, end)
    ensures Counts(if start < r.resets <= end
                   then support[r.resets := (if r.resets in support then support[r.resets] else 0) + 1] else support,
                   rs + [r], start, end)
  {
    var after := if start < r.resets <= end
                 then support[r.resets := (if r.resets in support then support[r.resets] else 0) + 1] else support;
    assert Reported(rs + [r], start, end) == Reported(rs, start, end) + if start < r.resets <= end then {r.resets}
        else {} by {
      assert forall x :: x in rs + [r] <==> x in rs || x == r;
    }
    Supported(rs, r.resets);
    if start < r.resets <= end && r.resets !in support {
      forall x | x in rs && start < x.resets <= end ensures x.resets in support {
      }
      assert Support(rs, r.resets) == 0;
    }
    forall at | at in after ensures after[at] == Support(rs + [r], at) {
      SupportOneMore(rs, r, at);
    }
  }

  /** The readings of one snapshot. */
  method CollectBuckets(s: Snapshot, key: string, start: Time, end: Time, before: seq<Running>, count: map<Time, nat>)
    returns (rs: seq<Running>, support: map<Time, nat>)
    requires Counts(count, before, start, end)
    ensures rs == before + RunningOf(s.buckets, key, s.observedAt) && Counts(support, rs, start, end)
  {
    rs, support := before, count;
    hide Counts, RoundToMinute;
    for j := 0 to |s.buckets|
      invariant rs == before + RunningOf(s.buckets[..j], key, s.observedAt) && Counts(support, rs, start, end)
    {
      var b := s.buckets[j];
      assert s.buckets[..j + 1][..j] == s.buckets[..j];
      if b.key != key || b.resetsAt.None? || b.windowMinutes.None? {
        continue;
      }
      var window := b.windowMinutes.value * MINUTE;
      if b.resetsAt.value - s.observedAt > window - RESET_STARTED {
        continue;
      }
      var at := RoundToMinute(b.resetsAt.value);
      var r := Running(s.observedAt, at, window);
      CountsOneMore(support, rs, r, start, end);
      rs := rs + [r];
      if start < at <= end {
        support := support[at := (if at in support then support[at] else 0) + 1];
      }
    }
    assert s.buckets[..|s.buckets|] == s.buckets;
  }

  /** pastResets' first loop. */
  method Collect(snaps: seq<Snapshot>, key: string, start: Time, end: Time) returns (rs: seq<Running>,
                 support: map<Time, nat>)
    ensures rs == Readings(snaps, key) && Counts(support, rs, start, end)
  {
    rs, support := [], map[];
    for i := 0 to |snaps|
      invariant rs == Readings(snaps[..i], key) && Counts(support, rs, start, end)
    {
      assert snaps[..i + 1][..i] == snaps[..i];
      rs, support := CollectBuckets(snaps[i], key, start, end, rs, support);
    }
    assert snaps[..|snaps|] == snaps;
  }

  method CountAgainst(rs: seq<Running>, at: Time, merge: Time) returns (against: nat)
    ensures against == Against(rs, at, merge)
  {
    against := 0;
    for i := 0 to |rs|
      invariant against == Against(rs[..i], at, merge)
    {
      assert rs[..i + 1][..i] == rs[..i];
      if rs[i].observed < at && rs[i].resets - at > merge && rs[i].resets - rs[i].window < at {
        against := against + 1;
      }
    }
    assert rs[..|rs|] == rs;
  }

  lemma UpheldOneMore(ats: set<Time>, at: Time, rs: seq<Running>, merge: Time)
    requires at !in ats
    ensures at !in UpheldOf(ats, rs, merge)
    ensures UpheldOf(ats + {at}, rs, merge) == UpheldOf(ats, rs, merge) + if Upheld(rs, at, merge) then {at} else {}
  {
  }

  lemma ListOneMore(found: seq<Time>, ats: set<Time>, at: Time)
    requires multiset(found) == multiset(ats) && at !in ats
    ensures multiset(found + [at]) == multiset(ats + {at})
  {
  }

  /** Whether one reset is kept. */
  method Judge(rs: seq<Running>, at: Time, support: nat, merge: Time, found: seq<Time>, ghost done: set<Time>)
    returns (kept: seq<Time>)
    requires support == Support(rs, at) && at !in done && multiset(found) == multiset(UpheldOf(done, rs, merge))
    ensures multiset(kept) == multiset(UpheldOf(done + {at}, rs, merge))
  {
    var against := CountAgainst(rs, at, merge);
    UpheldOneMore(done, at, rs, merge);
    hide UpheldOf;
    kept := found;
    if support >= against {
      ListOneMore(found, UpheldOf(done, rs, merge), at);
      kept := kept + [at];
    } else {
      assert UpheldOf(done + {at}, rs, merge) == UpheldOf(done, rs, merge);
    }
  }

  /** The resets kept, visiting the map in any order. */
  method Keep(rs: seq<Running>, support: map<Time, nat>, start: Time, end: Time, merge: Time) returns (found: seq<Time>)
    requires Counts(support, rs, start, end)
    ensures multiset(found) == multiset(Counting(rs, start, end, merge))
  {
    var todo := support.Keys;
    found := [];
    ghost var done: set<Time> := {};
    assert UpheldOf({}, rs, merge) == {};
    hide Support, Reported, UpheldOf;
    while todo != {}
      invariant todo + done == support.Keys && todo !! done
      invariant multiset(found) == multiset(UpheldOf(done, rs, merge))
      decreases |todo|
    {
      var at :| at in todo;
      found := Judge(rs, at, support[at], merge, found, done);
      todo, done := todo - {at}, done + {at};
    }
    assert done == support.Keys;
  }

  method SortTimes(found: seq<Time>) returns (kept: seq<Time>)
    ensures IsSorting(kept, found, Itself)
  {
    SortingExists(found, Itself);
    kept :| IsSorting(kept, found, Itself);
  }

  method PastResets(snaps: seq<Snapshot>, key: string, start: Time, end: Time, merge: Time) returns (out: seq<Time>)
    ensures ArePastResets(out, Readings(snaps, key), start, end, merge)
  {
    var rs, support := Collect(snaps, key, start, end);
    var found := Keep(rs, support, start, end, merge);
    var kept := SortTimes(found);
    out := [];
    var best: nat := 0;
    KeptSupport(kept, rs, support, start, end, merge);
    for i := 0 to |kept|
      invariant Merging(out, best) == Marks(kept[..i], rs, merge)
    {
      var at, n := kept[i], |out|;
      assert kept[..i + 1][..i] == kept[..i];
      if n > 0 && at - out[n - 1] < merge {
        if support[at] >= best {
          out, best := out[n - 1 := at], support[at];
        }
        continue;
      }
      out, best := out + [at], support[at];
    }
    assert kept[..|kept|] == kept;
  }

  lemma KeptSupport(kept: seq<Time>, rs: seq<Running>, support: map<Time, nat>, start: Time, end: Time, merge: Time)
    requires Counts(support, rs, start, end) && Lists(kept, Counting(rs, start, end, merge), Itself)
    ensures forall i :: 0 <= i < |kept| ==> kept[i] in support && support[kept[i]] == Support(rs, kept[i])
  {
    forall i | 0 <= i < |kept| ensures kept[i] in support {
      assert kept[i] in multiset(kept);
    }
  }

  // ---------------------------------------------------------- what marks mean

  /** In order, and no two closer than merge. */
  ghost predicate Spaced(out: seq<Time>, merge: Time) {
    forall i, j :: 0 <= i < j < |out| ==> out[i] < out[j] && out[j] - out[i] >= merge
  }

  lemma TakeSpaced(m: Merging, at: Time, support: nat, merge: Time)
    requires Spaced(m.out, merge) && (m.out != [] ==> m.out[|m.out| - 1] < at)
    ensures var out := Take(m, at, support, merge).out;
            Spaced(out, merge) && out != [] && out[|out| - 1] <= at
    ensures forall x :: x in Take(m, at, support, merge).out ==> x in m.out || x == at
  {
  }

  lemma {:induction false} MarksSpaced(kept: seq<Time>, rs: seq<Running>, merge: Time)
    requires forall i, j :: 0 <= i < j < |kept| ==> kept[i] < kept[j]
    ensures var out := Marks(kept, rs, merge).out;
            Spaced(out, merge) && (forall x :: x in out ==> x in kept)
            && (out != [] ==> kept != [] && out[|out| - 1] <= kept[|kept| - 1])
  {
    if kept != [] {
      var n := |kept| - 1;
      MarksSpaced(kept[..n], rs, merge);
      assert kept == kept[..n] + [kept[n]];
      hide Take, Spaced, Support;
      TakeSpaced(Marks(kept[..n], rs, merge), kept[n], Support(rs, kept[n]), merge);
    }
  }

  lemma ListedOnce(kept: seq<Time>, ats: set<Time>)
    requires Lists(kept, ats, Itself)
    ensures forall at :: at in kept <==> at in ats
    ensures forall i, j :: 0 <= i < j < |kept| ==> kept[i] < kept[j]
  {
    ListsMembers(kept, ats, Itself);
    forall i, j | 0 <= i < j < |kept| ensures kept[i] < kept[j] {
      assert Itself(kept[i]) <= Itself(kept[j]);
    }
  }

  /** Past resets lie within (start, end], no two closer than merge, and each
      was reported by a reading that showed its window running. */
  lemma PastResetsSpaced(out: seq<Time>, rs: seq<Running>, start: Time, end: Time, merge: Time)
    requires ArePastResets(out, rs, start, end, merge)
    ensures Spaced(out, merge)
    ensures forall at :: at in out ==>
        start < at <= end && Upheld(rs, at, merge) && exists r :: r in rs && r.resets == at
  {
    var kept :| Lists(kept, Counting(rs, start, end, merge), Itself) && out == Marks(kept, rs, merge).out;
    ListedOnce(kept, Counting(rs, start, end, merge));
    MarksSpaced(kept, rs, merge);
  }

  lemma {:induction false} EvidenceConcat(a: seq<Running>, b: seq<Running>, at: Time, merge: Time)
    ensures Support(a + b, at) == Support(a, at) + Support(b, at)
    ensures Against(a + b, at, merge) == Against(a, at, merge) + Against(b, at, merge)
  {
    if b == [] {
      assert a + b == a;
    } else {
      var n := |b| - 1;
      EvidenceConcat(a, b[..n], at, merge);
      assert (a + b)[..|a + b| - 1] == a + b[..n];
    }
  }

  lemma {:induction false} EvidencePermutes(a: seq<Running>, b: seq<Running>, at: Time, merge: Time)
    requires multiset(a) == multiset(b)
    ensures Support(a, at) == Support(b, at) && Against(a, at, merge) == Against(b, at, merge)
  {
    assert |multiset(a)| == |a| && |multiset(b)| == |b|;
    if a != [] {
      var i := Extract(a, b);
      EvidencePermutes(a[..|a| - 1], b[..i] + b[i + 1..], at, merge);
      EvidenceConcat(b[..i], [b[i]], at, merge);
      EvidenceConcat(b[..i] + [b[i]], b[i + 1..], at, merge);
      EvidenceConcat(b[..i], b[i + 1..], at, merge);
      EvidenceConcat(a[..|a| - 1], [b[i]], at, merge);
      assert a == a[..|a| - 1] + [b[i]];
    }
  }

  lemma {:induction false} ReadingsConcat(a: seq<Snapshot>, b: seq<Snapshot>, key: string)
    ensures Readings(a + b, key) == Readings(a, key) + Readings(b, key)
  {
    if b == [] {
      assert a + b == a;
    } else {
      var n := |b| - 1;
      hide RunningOf;
      ReadingsConcat(a, b[..n], key);
      assert (a + b)[..|a + b| - 1] == a + b[..n];
      Sorting.Regroup(Readings(a, key), Readings(b[..n], key), RunningOf(b[n].buckets, key, b[n].observedAt));
    }
  }

  lemma ReadingsPermute(a: seq<Snapshot>, b: seq<Snapshot>, key: string)
    requires multiset(a) == multiset(b)
    ensures multiset(Readings(a, key)) == multiset(Readings(b, key))
  {
    forall x, y ensures Readings(x + y, key) == Readings(x, key) + Readings(y, key) {
      ReadingsConcat(x, y, key);
    }
    hide Readings;
    CollectionPermutes(s => Readings(s, key), a, b);
  }

  lemma {:induction false} SameMarks(kept: seq<Time>, a: seq<Running>, b: seq<Running>, merge: Time)
    requires multiset(a) == multiset(b)
    ensures Marks(kept, a, merge) == Marks(kept, b, merge)
  {
    if kept != [] {
      hide Support, Take;
      SameMarks(kept[..|kept| - 1], a, b, merge);
      EvidencePermutes(a, b, kept[|kept| - 1], merge);
    }
  }

  lemma SameCounting(a: seq<Running>, b: seq<Running>, start: Time, end: Time, merge: Time)
    requires multiset(a) == multiset(b)
    ensures Counting(a, start, end, merge) == Counting(b, start, end, merge)
  {
    SameMembers(a, b);
    hide Support, Against;
    assert Reported(a, start, end) == Reported(b, start, end);
    forall at ensures Upheld(a, at, merge) == Upheld(b, at, merge) {
      EvidencePermutes(a, b, at, merge);
    }
  }

  /** Neither the order of the snapshots nor that of the map's entries matters. */
  lemma OnePastResets(out: seq<Time>, out': seq<Time>, a: seq<Snapshot>, b: seq<Snapshot>, key: string, start: Time,
                      end: Time, merge: Time)
    requires multiset(a) == multiset(b)
    requires ArePastResets(out, Readings(a, key), start, end, merge)
        && ArePastResets(out', Readings(b, key), start, end, merge)
    ensures out == out'
  {
    hide ArePastResets;
    ReadingsPermute(a, b, key);
    OneSetOfMarks(out, out', Readings(a, key), Readings(b, key), start, end, merge);
  }

  lemma OneSetOfMarks(out: seq<Time>, out': seq<Time>, ra: seq<Running>, rb: seq<Running>, start: Time, end: Time,
                      merge: Time)
    requires multiset(ra) == multiset(rb)
    requires ArePastResets(out, ra, start, end, merge) && ArePastResets(out', rb, start, end, merge)
    ensures out == out'
  {
    var kept :| Lists(kept, Counting(ra, start, end, merge), Itself) && out == Marks(kept, ra, merge).out;
    var kept' :| Lists(kept', Counting(rb, start, end, merge), Itself) && out' == Marks(kept', rb, merge).out;
    hide Counting, Marks;
    SameCounting(ra, rb, start, end, merge);
    OneSorting(kept, kept', Itself);
    SameMarks(kept, ra, rb, merge);
  }

  // ------------------------------------------------------------- which marks

  /** The readings, by their place, that report the reset. */
  ghost function Reporting(rs: seq<Running>, at: Time): set<nat> {
    set i: nat | i < |rs| && rs[i].resets == at
  }

  /** Those taken before it that show a window still running past it. */
  ghost function Denying(rs: seq<Running>, at: Time, merge: Time): set<nat> {
    set i: nat | i < |rs| && rs[i].observed < at && rs[i].resets > at + merge && rs[i].resets - rs[i].window < at
  }

  ghost function Reports(rs: seq<Running>, at: Time): nat { |Reporting(rs, at)| }

  ghost function Denials(rs: seq<Running>, at: Time, merge: Time): nat { |Denying(rs, at, merge)| }

  lemma ReportingOneMore(rs: seq<Running>, r: Running, at: Time)
    ensures Reporting(rs + [r], at) == Reporting(rs, at) + (if r.resets == at then {|rs|} else {})
    ensures |rs| !in Reporting(rs, at)
  {
    var all := rs + [r];
    forall i: nat ensures i in Reporting(all, at) <==> i in Reporting(rs, at) || (i == |rs| && r.resets == at) {
      assert i < |rs| ==> all[i] == rs[i];
    }
  }

  lemma DenyingOneMore(rs: seq<Running>, r: Running, at: Time, merge: Time)
    ensures Denying(rs + [r], at, merge) == Denying(rs, at, merge) + (if Contradicts(r, at, merge) then {|rs|} else {})
    ensures |rs| !in Denying(rs, at, merge)
  {
    var all := rs + [r];
    forall i: nat
      ensures i in Denying(all, at, merge) <==> i in Denying(rs, at, merge) || (i == |rs| && Contradicts(r, at, merge))
    {
      assert i < |rs| ==> all[i] == rs[i];
    }
  }

  lemma {:induction false} SupportIsReports(rs: seq<Running>, at: Time)
    ensures Support(rs, at) == Reports(rs, at)
  {
    if rs == [] {
      assert Reporting(rs, at) == {};
    } else {
      var n := |rs| - 1;
      assert rs == rs[..n] + [rs[n]];
      SupportIsReports(rs[..n], at);
      ReportingOneMore(rs[..n], rs[n], at);
      hide Reporting;
    }
  }

  lemma {:induction false} AgainstIsDenials(rs: seq<Running>, at: Time, merge: Time)
    ensures Against(rs, at, merge) == Denials(rs, at, merge)
  {
    if rs == [] {
      assert Denying(rs, at, merge) == {};
    } else {
      var n := |rs| - 1;
      assert rs == rs[..n] + [rs[n]];
      AgainstIsDenials(rs[..n], at, merge);
      DenyingOneMore(rs[..n], rs[n], at, merge);
      hide Denying, Contradicts;
    }
  }

  /** The most reported of the run's times, the latest of those on a tie. */
  ghost predicate MostReported(t: Time, run: seq<Time>, rs: seq<Running>) {
    && t in run
    && forall x :: x in run ==> Reports(rs, x) <= Reports(rs, t) && (x > t ==> Reports(rs, x) < Reports(rs, t))
  }

  ghost predicate AllBefore(run: seq<Time>, at: Time) {
    forall x :: x in run ==> x < at
  }

  /** Time j of the run is closer than merge to the most reported before it. */
  ghost predicate JoinsAt(run: seq<Time>, j: nat, rs: seq<Running>, merge: Time)
    requires j < |run|
  {
    exists t :: MostReported(t, run[..j], rs) && run[j] - t < merge
  }

  /** Each time after the first is closer than merge to the most reported before it. */
  ghost predicate OneReset(run: seq<Time>, rs: seq<Running>, merge: Time) {
    && run != []
    && forall j: nat :: 0 < j < |run| ==> JoinsAt(run, j, rs, merge)
  }

  /** Each mark is the most reported time of its run, and the next run begins
      no closer than merge after it. */
  ghost predicate MarkRuns(out: seq<Time>, runs: seq<seq<Time>>, rs: seq<Running>, merge: Time) {
    && |out| == |runs| && (forall i :: 0 <= i < |out| ==> MarkOf(out[i], runs[i], rs, merge))
    && forall i :: 0 <= i < |out| - 1 ==> NextLater(out, runs, i, merge)
  }

  ghost predicate NextLater(out: seq<Time>, runs: seq<seq<Time>>, i: nat, merge: Time)
    requires |out| == |runs| && i < |out| - 1
  {
    EndsBefore(out[i], runs[i + 1], merge)
  }

  ghost predicate MarkOf(mark: Time, run: seq<Time>, rs: seq<Running>, merge: Time) {
    OneReset(run, rs, merge) && MostReported(mark, run, rs)
  }

  ghost predicate EndsBefore(mark: Time, next: seq<Time>, merge: Time) {
    next != [] && next[0] - mark >= merge
  }

  /** The times that count: reported within (start, end] and not outvoted. */
  ghost predicate Counted(kept: seq<Time>, rs: seq<Running>, start: Time, end: Time, merge: Time) {
    && (forall i, j :: 0 <= i < j < |kept| ==> kept[i] < kept[j])
    && forall at :: at in kept <==>
        start < at <= end && Reports(rs, at) > 0 && Reports(rs, at) >= Denials(rs, at, merge)
  }

  lemma RunJoins(run: seq<Time>, t: Time, at: Time, rs: seq<Running>, merge: Time)
    requires OneReset(run, rs, merge) && MostReported(t, run, rs) && at - t < merge
    ensures OneReset(run + [at], rs, merge)
  {
    hide MostReported;
    var all := run + [at];
    forall j: nat | 0 < j < |all| ensures JoinsAt(all, j, rs, merge) {
      if j < |run| {
        assert all[..j] == run[..j] && all[j] == run[j] && JoinsAt(run, j, rs, merge);
      } else {
        assert all[..j] == run && all[j] == at;
      }
    }
  }

  lemma RunGrows(run: seq<Time>, t: Time, at: Time, rs: seq<Running>)
    requires MostReported(t, run, rs) && AllBefore(run, at)
    ensures MostReported(if Reports(rs, at) >= Reports(rs, t) then at else t, run + [at], rs)
  {
    hide Reports;
  }

  lemma LastRunGrows(runs: seq<seq<Time>>, m: Merging, at: Time, rs: seq<Running>, merge: Time)
    requires MarkRuns(m.out, runs, rs, merge) && AllBefore(Flatten(runs), at)
    requires m.out != [] && m.best == Reports(rs, m.out[|m.out| - 1]) && at - m.out[|m.out| - 1] < merge
    ensures var now, n := Take(m, at, Reports(rs, at), merge), |runs| - 1;
            && MarkRuns(now.out, runs[n := runs[n] + [at]], rs, merge)
            && now.out != [] && now.best == Reports(rs, now.out[|now.out| - 1])
  {
    hide Reports, MarkOf, EndsBefore, NextLater, Flatten, AllBefore;
    var n := |runs| - 1;
    LastBefore(runs, at);
    assert MarkOf(m.out[n], runs[n], rs, merge);
    MarkGrows(runs[n], m.out[n], at, rs, merge);
    var now, after := Take(m, at, Reports(rs, at), merge), runs[n := runs[n] + [at]];
    forall i: nat | i < n ensures NextLater(now.out, after, i, merge) {
      assert NextLater(m.out, runs, i, merge);
      StillLater(m.out, now.out, runs, at, i, merge);
    }
  }

  lemma StillLater(out: seq<Time>, now: seq<Time>, runs: seq<seq<Time>>, at: Time, i: nat, merge: Time)
    requires |now| == |out| == |runs| && i < |out| - 1 && NextLater(out, runs, i, merge) && now[i] == out[i]
    ensures NextLater(now, runs[|runs| - 1 := runs[|runs| - 1] + [at]], i, merge)
  {
  }

  lemma MarkGrows(run: seq<Time>, t: Time, at: Time, rs: seq<Running>, merge: Time)
    requires MarkOf(t, run, rs, merge) && AllBefore(run, at) && at - t < merge
    ensures MarkOf(if Reports(rs, at) >= Reports(rs, t) then at else t, run + [at], rs, merge)
  {
    hide Reports, MostReported, OneReset, AllBefore;
    RunGrows(run, t, at, rs);
    RunJoins(run, t, at, rs, merge);
  }

  lemma RunsGrow(runs: seq<seq<Time>>, m: Merging, at: Time, rs: seq<Running>, merge: Time)
      returns (after: seq<seq<Time>>)
    requires MarkRuns(m.out, runs, rs, merge) && AllBefore(Flatten(runs), at)
    requires m.out != [] ==> m.best == Reports(rs, m.out[|m.out| - 1])
    ensures var now := Take(m, at, Reports(rs, at), merge);
            MarkRuns(now.out, after, rs, merge) && now.out != [] && now.best == Reports(rs, now.out[|now.out| - 1])
    ensures Flatten(after) == Flatten(runs) + [at]
  {
    hide Reports, MostReported, OneReset, Flatten;
    var n := |runs| - 1;
    if m.out != [] && at - m.out[n] < merge {
      after := runs[n := runs[n] + [at]];
      LastFlatten(runs, at);
      hide MarkRuns, Take;
      LastRunGrows(runs, m, at, rs, merge);
    } else {
      after := runs + [[at]];
      FlattenConcat(runs, [[at]]);
      FlattenOne([at]);
      assert [at][0] == at;
      RunOpens(at, rs, merge);
      var now := m.out + [at];
      forall i: nat | i < |now| - 1 ensures NextLater(now, after, i, merge) {
        assert i < n ==> NextLater(m.out, runs, i, merge);
      }
    }
  }

  lemma LastBefore(runs: seq<seq<Time>>, at: Time)
    requires runs != [] && AllBefore(Flatten(runs), at)
    ensures AllBefore(runs[|runs| - 1], at)
  {
    var n := |runs| - 1;
    var last := runs[n];
    FlattenAt(runs, n);
    hide Flatten;
    forall x | x in last ensures x < at {
      assert x in Flatten(runs[..n]) + last;
      assert x in Flatten(runs);
    }
  }

  lemma LastFlatten(runs: seq<seq<Time>>, at: Time)
    requires runs != []
    ensures var n := |runs| - 1;
            Flatten(runs[n := runs[n] + [at]]) == Flatten(runs) + [at]
  {
    var n := |runs| - 1;
    FlattenAt(runs, n);
    FlattenUpdate(runs, n, runs[n] + [at]);
    assert runs[n + 1..] == [] && Flatten<Time>([]) == [];
  }

  lemma RunOpens(at: Time, rs: seq<Running>, merge: Time)
    ensures OneReset([at], rs, merge) && MostReported(at, [at], rs)
  {
  }

  lemma {:induction false} RunsOf(kept: seq<Time>, rs: seq<Running>, merge: Time) returns (runs: seq<seq<Time>>)
    requires forall i, j :: 0 <= i < j < |kept| ==> kept[i] < kept[j]
    ensures var m := Marks(kept, rs, merge);
            MarkRuns(m.out, runs, rs, merge) && (m.out != [] ==> m.best == Reports(rs, m.out[|m.out| - 1]))
    ensures Flatten(runs) == kept
  {
    if kept == [] {
      runs := [];
    } else {
      var n := |kept| - 1;
      var before := RunsOf(kept[..n], rs, merge);
      SupportIsReports(rs, kept[n]);
      assert kept == kept[..n] + [kept[n]];
      hide Take, Support, Reports, MarkRuns, Flatten;
      runs := RunsGrow(before, Marks(kept[..n], rs, merge), kept[n], rs, merge);
    }
  }

  /** Near resets are one: the times that count fall into runs, one to a mark,
      and a mark names its run's most reported time. */
  lemma MarksNameMostReported(out: seq<Time>, rs: seq<Running>, start: Time, end: Time, merge: Time)
      returns (runs: seq<seq<Time>>)
    requires ArePastResets(out, rs, start, end, merge)
    ensures Counted(Flatten(runs), rs, start, end, merge) && MarkRuns(out, runs, rs, merge)
  {
    var kept :| Lists(kept, Counting(rs, start, end, merge), Itself) && out == Marks(kept, rs, merge).out;
    ListedOnce(kept, Counting(rs, start, end, merge));
    runs := RunsOf(kept, rs, merge);
    hide Marks, MarkRuns, Lists, Flatten, Support, Against, Reports, Denials;
    forall at ensures at in kept <==>
        start < at <= end && Reports(rs, at) > 0 && Reports(rs, at) >= Denials(rs, at, merge) {
      SupportIsReports(rs, at);
      AgainstIsDenials(rs, at, merge);
      Supported(rs, at);
    }
  }

  // ----------------------------------------------------------- which readings

  lemma {:induction false} RunningConcat(a: seq<Bucket>, b: seq<Bucket>, key: string, observed: Time)
    ensures RunningOf(a + b, key, observed) == RunningOf(a, key, observed) + RunningOf(b, key, observed)
  {
    if b == [] {
      assert a + b == a;
    } else {
      var n := |b| - 1;
      RunningConcat(a, b[..n], key, observed);
      assert (a + b)[..|a + b| - 1] == a + b[..n];
      hide IsRunning, RoundToMinute;
    }
  }

  /** A reading counts once its window has run for two minutes: it gives one
      time, its reset to the minute; another bucket, or an earlier or
      incomplete reading, gives none. */
  lemma RunningOne(b: Bucket, key: string, observed: Time)
    ensures var rs := RunningOf([b], key, observed);
      if b.key == key && b.resetsAt.Some? && b.windowMinutes.Some?
         && b.resetsAt.value - b.windowMinutes.value * 60_000_000_000 <= observed - 120_000_000_000
      then |rs| == 1 && rs[0].observed == observed && rs[0].window == b.windowMinutes.value * 60_000_000_000
        && ToTheMinute(rs[0].resets, b.resetsAt.value)
      else rs == []
  {
    if b.resetsAt.Some? {
      RoundedIsNearest(b.resetsAt.value);
    }
    hide RoundToMinute;
    assert [b][..0] == [] && RunningOf([], key, observed) == [];
  }

  lemma ReadingsOne(s: Snapshot, key: string)
    ensures Readings([s], key) == RunningOf(s.buckets, key, s.observedAt)
  {
    hide RunningOf;
    assert [s][..0] == [] && Readings([], key) == [];
  }

  // ------------------------------------------------------------------- timeline

  function BinMinutes(window: int): int {
    if window <= 360 then 1 else if window <= 1440 then 5 else 30
  }

  /** Whether the current window's start is a reset too: its reading shows it
      running, and no mark is closer than merge. */
  predicate AddsStart(b: Observed, at: Time, start: Time, past: seq<Time>, merge: Time) {
    && IsRunning(b.bucket, b.bucket.key, b.observedAt) && at > start
    && forall i :: 0 <= i < |past| ==> past[i] - at >= merge || at - past[i] >= merge
  }

  function CurrentStart(b: Observed): Time
    requires b.bucket.resetsAt.Some? && b.bucket.windowMinutes.Some?
  {
    RoundToMinute(b.bucket.resetsAt.value - b.bucket.windowMinutes.value * MINUTE)
  }

  ghost predicate AreMarks(resets: seq<Time>, past: seq<Time>, b: Observed, start: Time, merge: Time) {
    if IsRunning(b.bucket, b.bucket.key, b.observedAt) && AddsStart(b, CurrentStart(b), start, past, merge)
    then IsSorting(resets, past + [CurrentStart(b)], Itself)
    else resets == past
  }

  ghost predicate AreTimelineResets(resets: seq<Time>, b: Observed, rs: seq<Running>, start: Time, now: Time,
                                    merge: Time) {
    exists past :: ArePastResets(past, rs, start, now, merge) && AreMarks(resets, past, b, start, merge)
  }

  /** The span of a timeline: whole bins, the last of which holds now, and at
      least the window's length. */
  method Span(window: int, now: Time) returns (start: Time, bin: int, bins: int)
    requires window > 0
    ensures bin == (if window <= 6 * 60 then 1 else if window <= 24 * 60 then 5 else 30)
    ensures start % (bin * MINUTE) == 0
    ensures start + (bins - 1) * (bin * MINUTE) <= now < start + bins * (bin * MINUTE)
    ensures window <= bins * bin < window + bin
  {
    bin := BinMinutes(window);
    bins := (window + bin - 1) / bin;
    var width := bin * MINUTE;
    start := now - now % width - (bins - 1) * width;
    SpanStart(now, bins, width);
  }

  lemma SpanStart(now: Time, bins: int, width: Time)
    requires width > 0
    ensures var start := now - now % width - (bins - 1) * width;
            start % width == 0 && start + (bins - 1) * width <= now < start + bins * width
  {
    var q := now / width;
    assert now == q * width + now % width;
    assert now - now % width - (bins - 1) * width == (q - bins + 1) * width;
    DivUnique((q - bins + 1) * width, width, q - bins + 1, 0);
  }

  /** Adds the current window's start. */
  method AddCurrent(past: seq<Time>, b: Observed, start: Time, merge: Time) returns (resets: seq<Time>)
    requires b.bucket.windowMinutes.Some?
    ensures AreMarks(resets, past, b, start, merge)
  {
    var window := b.bucket.windowMinutes.value;
    resets := past;
    hide RoundToMinute;
    if b.bucket.resetsAt.Some? && b.bucket.resetsAt.value - b.observedAt <= window * MINUTE - RESET_STARTED {
      var at := RoundToMinute(b.bucket.resetsAt.value - window * MINUTE);
      var near := Near(past, at, merge);
      if at > start && !near {
        resets := SortTimes(past + [at]);
      }
    }
  }

  /** The reset marks of timeline, for a bucket whose window's length is known. */
  method TimelineResets(b: Observed, snaps: seq<Snapshot>, start: Time, now: Time) returns (resets: seq<Time>)
    requires b.bucket.windowMinutes.Some? && b.bucket.windowMinutes.value > 0
    ensures AreTimelineResets(resets, b, Readings(snaps, b.bucket.key), start, now,
        b.bucket.windowMinutes.value * MINUTE / 2)
  {
    var merge := b.bucket.windowMinutes.value * MINUTE / 2;
    var past := PastResets(snaps, b.bucket.key, start, now, merge);
    hide ArePastResets, AreMarks;
    resets := AddCurrent(past, b, start, merge);
  }

  method Near(resets: seq<Time>, at: Time, merge: Time) returns (near: bool)
    ensures near <==> exists i :: 0 <= i < |resets| && resets[i] - at < merge && at - resets[i] < merge
  {
    for i := 0 to |resets|
      invariant forall j :: 0 <= j < i ==> resets[j] - at >= merge || at - resets[j] >= merge
    {
      if resets[i] - at < merge && at - resets[i] < merge {
        return true;
      }
    }
    return false;
  }

  /** The marks keep their order and spacing with the current window's start
      among them, and all lie within the timeline. */
  lemma MarksStaySpaced(resets: seq<Time>, rs: seq<Running>, b: Observed, start: Time, now: Time, merge: Time)
    requires merge > 0 && b.observedAt <= now && AreTimelineResets(resets, b, rs, start, now, merge)
    ensures Spaced(resets, merge) && forall at :: at in resets ==> start < at <= now
    ensures forall past, at :: ArePastResets(past, rs, start, now, merge) && at in past ==> at in resets
  {
    var past :| ArePastResets(past, rs, start, now, merge) && AreMarks(resets, past, b, start, merge);
    PastResetsSpaced(past, rs, start, now, merge);
    forall other | ArePastResets(other, rs, start, now, merge) ensures other == past {
      OneSetOfMarks(past, other, rs, rs, start, now, merge);
    }
    if IsRunning(b.bucket, b.bucket.key, b.observedAt) && AddsStart(b, CurrentStart(b), start, past, merge) {
      var at := CurrentStart(b);
      RoundedIsNearest(b.bucket.resetsAt.value - b.bucket.windowMinutes.value * MINUTE);
      SameMembers(resets, past + [at]);
      hide ArePastResets, RoundToMinute;
      SortedSpaced(resets, past, at, merge);
    }
  }

  /** The reading shows its window two minutes on. */
  predicate ShowsRunning(b: Observed) {
    && b.bucket.resetsAt.Some? && b.bucket.windowMinutes.Some?
    && b.observedAt >= b.bucket.resetsAt.value - b.bucket.windowMinutes.value * 60_000_000_000 + 120_000_000_000
  }

  /** at is the start, to the minute, of the window the reading shows. */
  predicate StartOf(at: Time, b: Observed) {
    && b.bucket.resetsAt.Some? && b.bucket.windowMinutes.Some?
    && ToTheMinute(at, b.bucket.resetsAt.value - b.bucket.windowMinutes.value * 60_000_000_000)
  }

  /** The only mark besides the past resets is the start of a window its
      reading shows running; and such a start within the timeline has a mark
      closer than merge. */
  lemma CurrentStartMarked(resets: seq<Time>, rs: seq<Running>, b: Observed, start: Time, now: Time, merge: Time)
    requires merge > 0 && AreTimelineResets(resets, b, rs, start, now, merge)
    ensures forall past, at :: ArePastResets(past, rs, start, now, merge) && at in resets ==>
        at in past || (ShowsRunning(b) && StartOf(at, b))
    ensures forall at :: ShowsRunning(b) && StartOf(at, b) && start < at ==> HasNear(resets, at, merge)
  {
    var past :| ArePastResets(past, rs, start, now, merge) && AreMarks(resets, past, b, start, merge);
    forall other | ArePastResets(other, rs, start, now, merge) ensures other == past {
      OneSetOfMarks(past, other, rs, rs, start, now, merge);
    }
    hide ArePastResets, RoundToMinute, ToTheMinute, IsSorting;
    if ShowsRunning(b) {
      MarkedStart(resets, past, b, start, merge);
    }
  }

  ghost predicate HasNear(resets: seq<Time>, at: Time, merge: Time) {
    exists mark :: mark in resets && mark - at < merge && at - mark < merge
  }

  lemma MarkedStart(resets: seq<Time>, past: seq<Time>, b: Observed, start: Time, merge: Time)
    requires merge > 0 && AreMarks(resets, past, b, start, merge) && ShowsRunning(b)
    ensures forall at :: at in resets ==> at in past || StartOf(at, b)
    ensures forall at :: StartOf(at, b) && start < at ==> HasNear(resets, at, merge)
  {
    var t := b.bucket.resetsAt.value - b.bucket.windowMinutes.value * 60_000_000_000;
    var c := CurrentStart(b);
    RoundedIsNearest(t);
    forall at | StartOf(at, b) ensures at == c {
      OneMinute(at, c, t);
    }
    hide RoundToMinute, ToTheMinute;
    if AddsStart(b, c, start, past, merge) {
      SameMembers(resets, past + [c]);
      assert c in resets;
    } else if start < c {
      var i :| 0 <= i < |past| && past[i] - c < merge && c - past[i] < merge;
      assert past[i] in resets;
    }
  }

  lemma SortedSpaced(resets: seq<Time>, past: seq<Time>, at: Time, merge: Time)
    requires merge > 0 && IsSorting(resets, past + [at], Itself) && Spaced(past, merge)
    requires forall i :: 0 <= i < |past| ==> past[i] - at >= merge || at - past[i] >= merge
    ensures Spaced(resets, merge)
  {
    forall i, j | 0 <= i < j < |resets| ensures resets[i] < resets[j] && resets[j] - resets[i] >= merge {
      assert Itself(resets[i]) <= Itself(resets[j]);
      OriginalIndices(resets, past + [at], i, j);
    }
  }

  lemma Twice(a: seq<Time>, i: nat, j: nat)
    requires i < j < |a| && a[i] == a[j]
    ensures multiset(a)[a[i]] >= 2
  {
    assert a == a[..j] + a[j..];
    assert a[..j][i] in multiset(a[..j]) && a[j..][0] in multiset(a[j..]);
  }

  /** Two places of a rearrangement come from two places of the original. */
  lemma OriginalIndices(a: seq<Time>, b: seq<Time>, i: nat, j: nat)
    requires multiset(a) == multiset(b) && i < j < |a|
    ensures exists k, m :: 0 <= k < |b| && 0 <= m < |b| && k != m && b[k] == a[i] && b[m] == a[j]
  {
    assert a[i] in multiset(b) && a[j] in multiset(b);
    var k :| 0 <= k < |b| && b[k] == a[i];
    if a[i] == a[j] {
      Twice(a, i, j);
      WithoutIndex(b, k);
      assert a[i] in multiset(b[..k] + b[k + 1..]);
      var n :| 0 <= n < |b[..k] + b[k + 1..]| && (b[..k] + b[k + 1..])[n] == a[i];
      var m := if n < k then n else n + 1;
      assert b[m] == a[j];
    } else {
      var m :| 0 <= m < |b| && b[m] == a[j];
    }
  }
}
