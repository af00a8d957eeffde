/** Thinning a series to its highest and last point per bucket of time:
    thinBy and ThinSeries of internal/quota/capacity.go. */
module Thinning {
  import opened Records
  import opened Series

  const MAX_POINTS: nat := 2000

  function BucketOf(p: SeriesPoint, width: Time): int
    requires width > 0
  {
    Quotient(p.at, width)
  }

  /** Where the run of points that share the bucket of point i ends, from j on. */
  function RunEnd(points: seq<SeriesPoint>, width: Time, i: nat, j: nat): (end: nat)
    requires width > 0 && i < j <= |points|
    ensures j <= end <= |points|
    ensures forall k :: j <= k < end ==> BucketOf(points[k], width) == BucketOf(points[i], width)
    ensures end < |points| ==> BucketOf(points[end], width) != BucketOf(points[i], width)
    decreases |points| - j
  {
    if j < |points| && BucketOf(points[j], width) == BucketOf(points[i], width) then RunEnd(points, width, i, j + 1)
        else j
  }

  /** The first of the highest points from i up to j. */
  function Highest(points: seq<SeriesPoint>, i: nat, j: nat): (peak: nat)
    requires i < j <= |points|
    ensures i <= peak < j
    ensures forall k :: i <= k < j ==> points[k].percent <= points[peak].percent
    ensures forall k :: i <= k < peak ==> points[k].percent < points[peak].percent
  {
    if j == i + 1 then i
    else
      var peak := Highest(points, i, j - 1);
      if points[j - 1].percent > points[peak].percent then j - 1 else peak
  }

  /** The indices kept from i on: of each run its first highest and its last point. */
  function Kept(points: seq<SeriesPoint>, width: Time, i: nat): seq<nat>
    requires width > 0 && i <= |points|
    decreases |points| - i
  {
    if i == |points| then []
    else
      var j := RunEnd(points, width, i, i + 1);
      var peak := Highest(points, i, j);
      (if peak != j - 1 then [peak, j - 1] else [j - 1]) + Kept(points, width, j)
  }

  function Pick(points: seq<SeriesPoint>, indices: seq<nat>): seq<SeriesPoint>
    requires forall n :: 0 <= n < |indices| ==> indices[n] < |points|
  {
    seq(|indices|, n requires 0 <= n < |indices| => points[indices[n]])
  }

  lemma {:induction false} KeptInRange(points: seq<SeriesPoint>, width: Time, i: nat)
    requires width > 0 && i <= |points|
    ensures forall n :: 0 <= n < |Kept(points, width, i)| ==> i <= Kept(points, width, i)[n] < |points|
    decreases |points| - i
  {
    hide Quotient;
    if i < |points| {
      KeptInRange(points, width, RunEnd(points, width, i, i + 1));
    }
  }

  function Thin(points: seq<SeriesPoint>, width: Time): seq<SeriesPoint>
    requires width > 0
  {
    ThinFrom(points, width, 0)
  }

  /** thinBy's inner loop: the run that starts at i. */
  method ScanRun(points: seq<SeriesPoint>, width: Time, i: nat) returns (peak: nat, j: nat)
    requires width > 0 && i < |points|
    ensures j == RunEnd(points, width, i, i + 1) && peak == Highest(points, i, j)
  {
    hide Quotient;
    var bucket := BucketOf(points[i], width);
    peak, j := i, i;
    while j < |points| && BucketOf(points[j], width) == bucket
      invariant i <= j <= |points|
      invariant j == i ==> peak == i
      invariant j > i ==> peak == Highest(points, i, j)
      invariant j > i ==> RunEnd(points, width, i, i + 1) == RunEnd(points, width, i, j)
    {
      if points[j].percent > points[peak].percent {
        peak := j;
      }
      j := j + 1;
    }
  }

  function ThinFrom(points: seq<SeriesPoint>, width: Time, i: nat): seq<SeriesPoint>
    requires width > 0 && i <= |points|
  {
    KeptInRange(points, width, i);
    Pick(points, Kept(points, width, i))
  }

  /** What is kept of the run that starts at i. */
  function KeptOf(points: seq<SeriesPoint>, width: Time, i: nat): (kept: seq<nat>)
    requires width > 0 && i < |points|
    ensures InRange(kept, points)
  {
    var j := RunEnd(points, width, i, i + 1);
    var peak := Highest(points, i, j);
    if peak != j - 1 then [peak, j - 1] else [j - 1]
  }

  lemma PickKept(points: seq<SeriesPoint>, width: Time, i: nat)
    requires width > 0 && i < |points|
    ensures var j := RunEnd(points, width, i, i + 1);
            var peak := Highest(points, i, j);
            Pick(points, KeptOf(points, width, i)) == (if peak != j - 1 then [points[peak]] else []) + [points[j - 1]]
  {
    hide RunEnd, Highest, Quotient;
    var j := RunEnd(points, width, i, i + 1);
    assert [] + [points[j - 1]] == [points[j - 1]];
  }

  lemma ThinFromStep(points: seq<SeriesPoint>, width: Time, i: nat)
    requires width > 0 && i < |points|
    ensures var j := RunEnd(points, width, i, i + 1);
            var peak := Highest(points, i, j);
            ThinFrom(points, width, i)
              == (if peak != j - 1 then [points[peak]] else []) + [points[j - 1]] + ThinFrom(points, width, j)
  {
    var j := RunEnd(points, width, i, i + 1);
    var rest := Kept(points, width, j);
    KeptInRange(points, width, i);
    KeptInRange(points, width, j);
    assert Kept(points, width, i) == KeptOf(points, width, i) + rest;
    PickKept(points, width, i);
    hide RunEnd, Highest, Quotient, Kept, KeptOf, Pick;
    PickConcat(points, KeptOf(points, width, i), rest);
  }

  /** thinBy's outer loop, a run at a time. */
  method ThinBy(points: seq<SeriesPoint>, width: Time) returns (out: seq<SeriesPoint>)
    requires width > 0
    ensures out == Thin(points, width)
  {
    hide Quotient, RunEnd, Highest, Kept, Pick, ThinFrom;
    out := [];
    var i: nat := 0;
    Unchanged(ThinFrom(points, width, 0));
    while i < |points|
      invariant i <= |points|
      invariant out + ThinFrom(points, width, i) == ThinFrom(points, width, 0)
    {
      ghost var before := out;
      var peak, j := ScanRun(points, width, i);
      if peak != j - 1 {
        out := out + [points[peak]];
      }
      out := out + [points[j - 1]];
      ThinByStep(points, width, i, before, out, ThinFrom(points, width, 0));
      i := j;
    }
    ThinFromEnd(points, width);
    Unchanged(out);
    ThinIsFromStart(points, width);
  }

  lemma ThinIsFromStart(points: seq<SeriesPoint>, width: Time)
    requires width > 0
    ensures Thin(points, width) == ThinFrom(points, width, 0)
  {
    hide ThinFrom;
  }

  /** One run's points appended to what the runs before have left. */
  lemma ThinByStep(points: seq<SeriesPoint>, width: Time, i: nat, before: seq<SeriesPoint>, after: seq<SeriesPoint>,
                   all: seq<SeriesPoint>)
    requires width > 0 && i < |points| && before + ThinFrom(points, width, i) == all
    requires var j := RunEnd(points, width, i, i + 1);
             var peak := Highest(points, i, j);
             after == (if peak != j - 1 then before + [points[peak]] else before) + [points[j - 1]]
    ensures after + ThinFrom(points, width, RunEnd(points, width, i, i + 1)) == all
  {
    ThinFromStep(points, width, i);
    hide ThinFrom, RunEnd, Highest, Quotient;
    var j := RunEnd(points, width, i, i + 1);
    var peak := Highest(points, i, j);
    var high := if peak != j - 1 then [points[peak]] else [];
    Unchanged(before);
    assert after == before + high + [points[j - 1]];
    Associate(before, high, [points[j - 1]], ThinFrom(points, width, j));
  }

  lemma ThinFromEnd(points: seq<SeriesPoint>, width: Time)
    requires width > 0
    ensures ThinFrom(points, width, |points|) == []
  {
  }

  lemma Associate<T>(a: seq<T>, b: seq<T>, c: seq<T>, d: seq<T>)
    ensures a + (b + c + d) == a + b + c + d
  {
  }

  lemma Unchanged<T>(a: seq<T>)
    ensures a + [] == a == [] + a
  {
  }

  ghost predicate InRange(indices: seq<nat>, points: seq<SeriesPoint>) {
    forall n :: 0 <= n < |indices| ==> indices[n] < |points|
  }

  lemma PickConcat(points: seq<SeriesPoint>, a: seq<nat>, b: seq<nat>)
    requires InRange(a, points) && InRange(b, points)
    ensures InRange(a + b, points) && Pick(points, a + b) == Pick(points, a) + Pick(points, b)
  {
  }

  // ------------------------------------------------------------- what is kept

  /** Thinning keeps points in order: the indices strictly increase. */
  lemma {:induction false} KeptIncreases(points: seq<SeriesPoint>, width: Time, i: nat)
    requires width > 0 && i <= |points|
    ensures forall m, n :: 0 <= m < n < |Kept(points, width, i)| ==>
        Kept(points, width, i)[m] < Kept(points, width, i)[n]
    decreases |points| - i
  {
    if i < |points| {
      var j := RunEnd(points, width, i, i + 1);
      assert Kept(points, width, i) == KeptOf(points, width, i) + Kept(points, width, j);
      hide Quotient, Kept, Highest, RunEnd;
      KeptIncreases(points, width, j);
      KeptInRange(points, width, j);
    }
  }

  /** The last point of a bucket's run. */
  ghost predicate LastOfRun(points: seq<SeriesPoint>, width: Time, k: nat)
    requires width > 0 && k < |points|
  {
    k + 1 < |points| ==> BucketOf(points[k + 1], width) != BucketOf(points[k], width)
  }

  /** Points i up to k share a bucket. */
  ghost predicate SameRun(points: seq<SeriesPoint>, width: Time, i: nat, k: nat)
    requires width > 0 && i < |points| && k < |points|
  {
    forall n :: i <= n <= k || k <= n <= i ==> BucketOf(points[n], width) == BucketOf(points[i], width)
  }

  /** The first of its run's highest points. */
  ghost predicate FirstHighestOfRun(points: seq<SeriesPoint>, width: Time, k: nat)
    requires width > 0 && k < |points|
  {
    forall n :: 0 <= n < |points| && SameRun(points, width, k, n) ==>
      points[n].percent <= points[k].percent && (n < k ==> points[n].percent < points[k].percent)
  }

  /** A run starts at i. */
  ghost predicate StartsRun(points: seq<SeriesPoint>, width: Time, i: nat)
    requires width > 0 && i <= |points|
  {
    0 < i < |points| ==> BucketOf(points[i - 1], width) != BucketOf(points[i], width)
  }

  lemma RunOf(points: seq<SeriesPoint>, width: Time, i: nat, k: nat, n: nat)
    requires width > 0 && i < |points| && StartsRun(points, width, i) && n < |points|
    requires i <= k < RunEnd(points, width, i, i + 1)
    ensures SameRun(points, width, k, n) <==> i <= n < RunEnd(points, width, i, i + 1)
  {
    hide Quotient;
    var j := RunEnd(points, width, i, i + 1);
    if n < i {
      assert BucketOf(points[i - 1], width) != BucketOf(points[i], width);
    } else if n >= j {
      assert BucketOf(points[j], width) != BucketOf(points[i], width);
    }
  }

  /** Exactly the first highest and the last point of each run are kept. */
  lemma {:induction false} KeptExactly(points: seq<SeriesPoint>, width: Time, i: nat, k: nat)
    requires width > 0 && i <= |points| && StartsRun(points, width, i) && i <= k < |points|
    ensures k in Kept(points, width, i) <==> LastOfRun(points, width, k) || FirstHighestOfRun(points, width, k)
    decreases |points| - i
  {
    hide Quotient;
    var j := RunEnd(points, width, i, i + 1);
    KeptInRange(points, width, j);
    if k >= j {
      KeptExactly(points, width, j, k);
    } else {
      KeptOfRun(points, width, i, k);
    }
  }

  lemma KeptOfRun(points: seq<SeriesPoint>, width: Time, i: nat, k: nat)
    requires width > 0 && i < |points| && StartsRun(points, width, i) && i <= k < RunEnd(points, width, i, i + 1)
    ensures LastOfRun(points, width, k) <==> k == RunEnd(points, width, i, i + 1) - 1
    ensures FirstHighestOfRun(points, width, k) <==> k == Highest(points, i, RunEnd(points, width, i, i + 1))
  {
    hide Quotient;
    var j := RunEnd(points, width, i, i + 1);
    var peak := Highest(points, i, j);
    forall n | 0 <= n < |points| ensures SameRun(points, width, k, n) <==> i <= n < j {
      RunOf(points, width, i, k, n);
    }
    hide SameRun;
    assert LastOfRun(points, width, k) <==> k == j - 1;
    if FirstHighestOfRun(points, width, k) {
      assert SameRun(points, width, k, peak);
    }
  }

  // --------------------------------------------------------------- ThinSeries

  /** ThinSeries: a point per minute, and then wider buckets when that is still too many. */
  function Thinned(points: seq<SeriesPoint>): seq<SeriesPoint>
    requires Chronological(points)
  {
    var minutes := Thin(points, MINUTE);
    if |minutes| > MAX_POINTS then
      ThinChronological(points, MINUTE);
      Thin(minutes, WiderBucket(minutes))
    else minutes
  }

  /** The second pass's bucket: a 1000th of what the series spans, and a nanosecond. */
  function WiderBucket(points: seq<SeriesPoint>): (width: Time)
    requires points != [] && Chronological(points)
    ensures width > 0
  {
    assert points[0].at <= points[|points| - 1].at;
    Quotient(points[|points| - 1].at - points[0].at, MAX_POINTS / 2) + 1
  }

  method ThinSeries(points: seq<SeriesPoint>) returns (out: seq<SeriesPoint>)
    requires Chronological(points)
    ensures out == Thinned(points)
  {
    hide Quotient, Kept;
    out := ThinBy(points, MINUTE);
    if |out| > MAX_POINTS {
      ThinChronological(points, MINUTE);
      var span := out[|out| - 1].at - out[0].at;
      assert Quotient(span, MAX_POINTS / 2) + 1 == WiderBucket(out);
      out := ThinBy(out, Quotient(span, MAX_POINTS / 2) + 1);
    }
  }

  lemma ThinChronological(points: seq<SeriesPoint>, width: Time)
    requires width > 0 && Chronological(points)
    ensures Chronological(Thin(points, width))
  {
    hide Quotient;
    KeptInRange(points, width, 0);
    KeptIncreases(points, width, 0);
  }

  /** Indices that pick a subsequence. */
  ghost predicate Ascends(indices: seq<nat>, n: nat) {
    && (forall k :: 0 <= k < |indices| ==> indices[k] < n)
    && (forall j, k :: 0 <= j < k < |indices| ==> indices[j] < indices[k])
  }

  ghost predicate Subsequence(out: seq<SeriesPoint>, points: seq<SeriesPoint>) {
    exists indices :: Ascends(indices, |points|) && out == Pick(points, indices)
  }

  ghost predicate GoesTo(out: seq<SeriesPoint>, percent: real) {
    exists k :: 0 <= k < |out| && out[k].percent >= percent
  }

  /** No point of the series is higher than all that is left. */
  ghost predicate Reaches(out: seq<SeriesPoint>, points: seq<SeriesPoint>) {
    forall i :: 0 <= i < |points| ==> GoesTo(out, points[i].percent)
  }

  /** A faithful sample: a subsequence that ends where the series ends and
      reaches its highest point. */
  ghost predicate Samples(out: seq<SeriesPoint>, points: seq<SeriesPoint>) {
    && Subsequence(out, points) && Reaches(out, points)
    && (points != [] ==> out != [] && out[|out| - 1] == points[|points| - 1])
  }

  lemma ThinSubsequence(points: seq<SeriesPoint>, width: Time)
    requires width > 0
    ensures Subsequence(Thin(points, width), points)
  {
    hide Quotient;
    KeptInRange(points, width, 0);
    KeptIncreases(points, width, 0);
    assert Ascends(Kept(points, width, 0), |points|);
  }

  lemma ThinReaches(points: seq<SeriesPoint>, width: Time)
    requires width > 0
    ensures Reaches(Thin(points, width), points)
  {
    hide Quotient;
    var out := Thin(points, width);
    KeptInRange(points, width, 0);
    forall i | 0 <= i < |points| ensures GoesTo(out, points[i].percent) {
      var n := KeptHigher(points, width, 0, i);
      assert out[n] == points[Kept(points, width, 0)[n]];
    }
  }

  lemma ThinSamples(points: seq<SeriesPoint>, width: Time)
    requires width > 0
    ensures Samples(Thin(points, width), points)
  {
    hide Subsequence, Reaches, Quotient;
    ThinSubsequence(points, width);
    ThinReaches(points, width);
    if points != [] {
      KeptInRange(points, width, 0);
      KeptLast(points, width, 0);
    }
  }

  lemma {:induction false} KeptLast(points: seq<SeriesPoint>, width: Time, i: nat)
    requires width > 0 && i < |points|
    ensures var kept := Kept(points, width, i); kept != [] && kept[|kept| - 1] == |points| - 1
    decreases |points| - i
  {
    hide Quotient, Highest, RunEnd, BucketOf;
    var j := RunEnd(points, width, i, i + 1);
    if j < |points| {
      KeptLast(points, width, j);
    }
  }

  lemma {:induction false} KeptHigher(points: seq<SeriesPoint>, width: Time, i: nat, k: nat) returns (n: nat)
    requires width > 0 && i <= k < |points|
    ensures n < |Kept(points, width, i)| && Kept(points, width, i)[n] < |points|
    ensures points[Kept(points, width, i)[n]].percent >= points[k].percent
    decreases |points| - i
  {
    hide Quotient;
    var j := RunEnd(points, width, i, i + 1);
    if k < j {
      n := 0;
    } else {
      var m := KeptHigher(points, width, j, k);
      n := |Kept(points, width, i)| - |Kept(points, width, j)| + m;
    }
  }

  lemma SamplesThen(a: seq<SeriesPoint>, b: seq<SeriesPoint>, c: seq<SeriesPoint>)
    requires Samples(b, a) && Samples(c, b)
    ensures Samples(c, a)
  {
    hide Subsequence, Reaches;
    SubsequenceThen(a, b, c);
    ReachesThen(a, b, c);
  }

  lemma ReachesThen(a: seq<SeriesPoint>, b: seq<SeriesPoint>, c: seq<SeriesPoint>)
    requires Reaches(b, a) && Reaches(c, b)
    ensures Reaches(c, a)
  {
    forall i | 0 <= i < |a| ensures GoesTo(c, a[i].percent) {
      assert GoesTo(b, a[i].percent);
      var j :| 0 <= j < |b| && b[j].percent >= a[i].percent;
      assert GoesTo(c, b[j].percent);
      var k :| 0 <= k < |c| && c[k].percent >= b[j].percent;
      assert c[k].percent >= a[i].percent;
    }
  }

  lemma SubsequenceThen(a: seq<SeriesPoint>, b: seq<SeriesPoint>, c: seq<SeriesPoint>)
    requires Subsequence(b, a) && Subsequence(c, b)
    ensures Subsequence(c, a)
  {
    var first: seq<nat> :| Ascends(first, |a|) && b == Pick(a, first);
    var second: seq<nat> :| Ascends(second, |b|) && c == Pick(b, second);
    var both := seq(|second|, k requires 0 <= k < |second| => first[second[k]]);
    assert Ascends(both, |a|);
    assert c == Pick(a, both);
  }

  lemma ThinnedSamples(points: seq<SeriesPoint>)
    requires Chronological(points)
    ensures Samples(Thinned(points), points) && Chronological(Thinned(points))
  {
    hide Quotient, Samples;
    var minutes := Thin(points, MINUTE);
    ThinSamples(points, MINUTE);
    ThinChronological(points, MINUTE);
    if |minutes| > MAX_POINTS {
      ThinSamples(minutes, WiderBucket(minutes));
      ThinChronological(minutes, WiderBucket(minutes));
      SamplesThen(points, minutes, Thinned(points));
    }
  }

  // ----------------------------------------------------------------- the drops

  /** Which of the series' points ThinSeries keeps. */
  function ThinnedIndices(points: seq<SeriesPoint>): seq<nat>
    requires Chronological(points)
  {
    var kept := Kept(points, MINUTE, 0);
    var minutes := Thin(points, MINUTE);
    if |minutes| > MAX_POINTS then
      ThinChronological(points, MINUTE);
      KeptInRange(minutes, WiderBucket(minutes), 0);
      PickAt(kept, Kept(minutes, WiderBucket(minutes), 0))
    else kept
  }

  function PickAt(first: seq<nat>, second: seq<nat>): seq<nat>
    requires forall n :: 0 <= n < |second| ==> second[n] < |first|
  {
    seq(|second|, n requires 0 <= n < |second| => first[second[n]])
  }

  lemma ThinnedPicks(points: seq<SeriesPoint>)
    requires Chronological(points)
    ensures InRange(ThinnedIndices(points), points) && Thinned(points) == Pick(points, ThinnedIndices(points))
  {
    hide Quotient, Kept, LastOfRun, StartsRun;
    KeptInRange(points, MINUTE, 0);
    var minutes := Thin(points, MINUTE);
    if |minutes| > MAX_POINTS {
      ThinChronological(points, MINUTE);
      KeptInRange(minutes, WiderBucket(minutes), 0);
    }
  }

  /** A pass keeps the point: it is the last of its bucket's run or the first of the highest there. */
  ghost predicate KeptInPass(points: seq<SeriesPoint>, width: Time, k: nat)
    requires width > 0 && k < |points|
  {
    LastOfRun(points, width, k) || FirstHighestOfRun(points, width, k)
  }

  /** Of the points the first pass leaves, m is the series' point k, and the second pass keeps it. */
  ghost predicate KeptAgain(points: seq<SeriesPoint>, k: nat, m: int)
    requires Chronological(points) && |Thin(points, MINUTE)| > MAX_POINTS
  {
    var minutes := Thin(points, MINUTE);
    ThinChronological(points, MINUTE);
    0 <= m < |minutes| && Kept(points, MINUTE, 0)[m] == k && KeptInPass(minutes, WiderBucket(minutes), m)
  }

  /** The kept indices that the second pass keeps as well. */
  lemma KeptTwice(first: seq<nat>, second: seq<nat>, m: nat)
    requires forall n :: 0 <= n < |second| ==> second[n] < |first|
    requires forall i, j :: 0 <= i < j < |first| ==> first[i] < first[j]
    requires m < |first|
    ensures first[m] in PickAt(first, second) <==> m in second
  {
    if m in second {
      var n :| 0 <= n < |second| && second[n] == m;
      assert PickAt(first, second)[n] == first[m];
    }
  }

  /** What survives of a series: exactly the points that their minute keeps
      and, where a second pass is made, their wider bucket keeps as well. */
  lemma PointSurvives(points: seq<SeriesPoint>, k: nat)
    requires Chronological(points) && k < |points|
    ensures k in ThinnedIndices(points) <==>
            && KeptInPass(points, MINUTE, k)
            && (|Thin(points, MINUTE)| > MAX_POINTS ==> exists m :: KeptAgain(points, k, m))
  {
    hide Quotient, BucketOf, Kept, LastOfRun, FirstHighestOfRun;
    KeptExactly(points, MINUTE, 0, k);
    if |Thin(points, MINUTE)| > MAX_POINTS {
      SecondPass(points, k);
    }
  }

  lemma SecondPass(points: seq<SeriesPoint>, k: nat)
    requires Chronological(points) && k < |points| && |Thin(points, MINUTE)| > MAX_POINTS
    ensures k in ThinnedIndices(points) <==> exists m :: KeptAgain(points, k, m)
  {
    hide Quotient, BucketOf, Kept, LastOfRun, FirstHighestOfRun;
    var kept, minutes := Kept(points, MINUTE, 0), Thin(points, MINUTE);
    ThinChronological(points, MINUTE);
    KeptInRange(points, MINUTE, 0);
    KeptIncreases(points, MINUTE, 0);
    var again := Kept(minutes, WiderBucket(minutes), 0);
    KeptInRange(minutes, WiderBucket(minutes), 0);
    assert |minutes| == |kept|;
    forall m | 0 <= m < |kept| && kept[m] == k ensures k in PickAt(kept, again) <==> KeptAgain(points, k, m) {
      KeptTwice(kept, again, m);
      KeptExactly(minutes, WiderBucket(minutes), 0, m);
    }
    if k in PickAt(kept, again) {
      var n :| 0 <= n < |again| && kept[again[n]] == k;
      assert KeptAgain(points, k, again[n]);
    }
  }

  /** Of a bucket's run, the points at which nothing is used are kept when they
      come last, or first when nothing is used in all of it. */
  ghost predicate KeptAtZero(points: seq<SeriesPoint>, width: Time, k: nat)
    requires width > 0 && k < |points|
  {
    || LastOfRun(points, width, k)
    || (StartsRun(points, width, k)
        && forall n :: 0 <= n < |points| && SameRun(points, width, k, n) ==> points[n].percent == 0.0)
  }

  ghost predicate NonNegative(points: seq<SeriesPoint>) {
    forall i :: 0 <= i < |points| ==> points[i].percent >= 0.0
  }

  lemma ZeroKept(points: seq<SeriesPoint>, width: Time, k: nat)
    requires width > 0 && k < |points| && NonNegative(points) && points[k].percent == 0.0
    ensures KeptInPass(points, width, k) <==> KeptAtZero(points, width, k)
  {
    hide Quotient, BucketOf;
    assert k > 0 && BucketOf(points[k - 1], width) == BucketOf(points[k], width) ==> SameRun(points, width, k, k - 1);
    if StartsRun(points, width, k) {
      forall n | 0 <= n < k ensures !SameRun(points, width, k, n) {
        assert BucketOf(points[k - 1], width) != BucketOf(points[k], width);
      }
    }
  }

  /** Of the points the first pass leaves, m is the drop k, and the second pass keeps it. */
  ghost predicate DropKeptAgain(points: seq<SeriesPoint>, k: nat, m: int)
    requires Chronological(points) && |Thin(points, MINUTE)| > MAX_POINTS
  {
    var minutes := Thin(points, MINUTE);
    ThinChronological(points, MINUTE);
    0 <= m < |minutes| && Kept(points, MINUTE, 0)[m] == k && KeptAtZero(minutes, WiderBucket(minutes), m)
  }

  /** A drop to 0 survives exactly when it is the last point of its minute, or
      the first of one without use, and, where a second pass is made, the same
      goes for its wider bucket there. */
  lemma DropSurvives(points: seq<SeriesPoint>, k: nat)
    requires Chronological(points) && NonNegative(points) && k < |points| && points[k].percent == 0.0
    ensures k in ThinnedIndices(points) <==>
            && KeptAtZero(points, MINUTE, k)
            && (|Thin(points, MINUTE)| > MAX_POINTS ==> exists m :: DropKeptAgain(points, k, m))
  {
    hide Quotient, BucketOf, Kept, StartsRun, KeptInPass, KeptAtZero;
    PointSurvives(points, k);
    ZeroKept(points, MINUTE, k);
    if |Thin(points, MINUTE)| > MAX_POINTS {
      forall m ensures KeptAgain(points, k, m) <==> DropKeptAgain(points, k, m) {
        SecondDrop(points, k, m);
      }
    }
    hide ThinnedIndices;
  }

  lemma SecondDrop(points: seq<SeriesPoint>, k: nat, m: int)
    requires Chronological(points) && NonNegative(points) && k < |points| && points[k].percent == 0.0
    requires |Thin(points, MINUTE)| > MAX_POINTS
    ensures KeptAgain(points, k, m) <==> DropKeptAgain(points, k, m)
  {
    hide Quotient, BucketOf, Kept, StartsRun, KeptInPass, KeptAtZero;
    var minutes := Thin(points, MINUTE);
    ThinChronological(points, MINUTE);
    KeptInRange(points, MINUTE, 0);
    if 0 <= m < |minutes| && Kept(points, MINUTE, 0)[m] == k {
      assert minutes[m] == points[k];
      ZeroKept(minutes, WiderBucket(minutes), m);
    }
  }

  // ------------------------------------------------------------------ the size

  /** How many runs there are from i on, and in how many the highest point comes before the last. */
  function Runs(points: seq<SeriesPoint>, width: Time, i: nat): nat
    requires width > 0 && i <= |points|
    decreases |points| - i
  {
    if i == |points| then 0 else 1 + Runs(points, width, RunEnd(points, width, i, i + 1))
  }

  function EarlyPeaks(points: seq<SeriesPoint>, width: Time, i: nat): nat
    requires width > 0 && i <= |points|
    decreases |points| - i
  {
    if i == |points| then 0
    else
      var j := RunEnd(points, width, i, i + 1);
      (if Highest(points, i, j) != j - 1 then 1 else 0) + EarlyPeaks(points, width, j)
  }

  lemma {:induction false} KeptSize(points: seq<SeriesPoint>, width: Time, i: nat)
    requires width > 0 && i <= |points|
    ensures |Kept(points, width, i)| == Runs(points, width, i) + EarlyPeaks(points, width, i)
    ensures EarlyPeaks(points, width, i) <= Runs(points, width, i)
    decreases |points| - i
  {
    hide Quotient;
    if i < |points| {
      KeptSize(points, width, RunEnd(points, width, i, i + 1));
    }
  }

  lemma DivMonotone(a: int, b: int, w: int)
    requires 0 <= a <= b && w > 0
    ensures 0 <= a / w <= b / w
  {
    MultipleOutside(a / w - b / w, w);
    assert (a / w - b / w) * w == (a - a % w) - (b - b % w);
  }

  lemma QuotientMonotone(a: int, b: int, w: int)
    requires a <= b && w > 0
    ensures Quotient(a, w) <= Quotient(b, w)
  {
    if a >= 0 {
      DivMonotone(a, b, w);
    } else if b < 0 {
      DivMonotone(-b, -a, w);
    } else {
      DivMonotone(-a, -a, w);
      DivMonotone(b, b, w);
    }
  }

  lemma DivSum(a: int, b: int, w: int)
    requires a >= 0 && b >= 0 && w > 0
    ensures a / w + b / w <= (a + b) / w <= a / w + b / w + 1
  {
    var q, r := a / w, a % w;
    var q', r' := b / w, b % w;
    if r + r' < w {
      assert a + b == (q + q') * w + (r + r');
      DivUnique(a + b, w, q + q', r + r');
    } else {
      assert a + b == (q + q' + 1) * w + (r + r' - w);
      DivUnique(a + b, w, q + q' + 1, r + r' - w);
    }
  }

  /** At most 1001 of the wider buckets meet the series. */
  lemma FewBuckets(a: int, b: int, w: int)
    requires a <= b && w == (b - a) / 1000 + 1
    ensures w > 0 && Quotient(b, w) - Quotient(a, w) <= 1000
  {
    var span := b - a;
    MultipleOutside(span / w - 999, w);
    assert (span / w - 999) * w == span - span % w - 999 * w;
    assert span / w <= 999;
    if a >= 0 {
      DivSum(a, span, w);
    } else if b < 0 {
      DivSum(-b, span, w);
    } else {
      DivSum(-a, b, w);
    }
  }

  lemma {:induction false} RunsBound(points: seq<SeriesPoint>, width: Time, i: nat)
    requires width > 0 && i < |points| && Chronological(points)
    ensures Runs(points, width, i) <= BucketOf(points[|points| - 1], width) - BucketOf(points[i], width) + 1
    decreases |points| - i
  {
    hide Quotient;
    var j := RunEnd(points, width, i, i + 1);
    if j < |points| {
      QuotientMonotone(points[i].at, points[j].at, width);
      RunsBound(points, width, j);
    } else {
      QuotientMonotone(points[i].at, points[|points| - 1].at, width);
      assert Runs(points, width, j) == 0;
    }
  }

  /** The documented bound of 2000 points fails exactly when the second pass
      meets all of 1001 buckets and at most one of them has its peak last; it
      never fails by more than two points. */
  lemma ThinnedSize(points: seq<SeriesPoint>)
    requires Chronological(points)
    ensures |Thinned(points)| <= MAX_POINTS + 2
    ensures |Thinned(points)| <= MAX_POINTS <==>
            var minutes := Thin(points, MINUTE);
            |minutes| <= MAX_POINTS
            || (ThinChronological(points, MINUTE);
                Runs(minutes, WiderBucket(minutes), 0) <= 1000 || EarlyPeaks(minutes, WiderBucket(minutes), 0) < 1000)
  {
    var minutes := Thin(points, MINUTE);
    ThinChronological(points, MINUTE);
    if |minutes| > MAX_POINTS {
      var width := WiderBucket(minutes);
      FewBuckets(minutes[0].at, minutes[|minutes| - 1].at, width);
      RunsBound(minutes, width, 0);
      KeptSize(minutes, width, 0);
      hide Quotient, Kept, Runs, EarlyPeaks;
      assert |Thinned(points)| == |Kept(minutes, width, 0)|;
    }
  }

  /** A bucket whose highest point comes before its last falls in between. */
  lemma {:induction false} PeaksFall(points: seq<SeriesPoint>, width: Time, i: nat)
    requires width > 0 && i < |points|
    ensures Falls(points, i + 1) + EarlyPeaks(points, width, i) <= Falls(points, |points|)
    decreases |points| - i
  {
    hide BucketOf, Falls;
    var j := RunEnd(points, width, i, i + 1);
    var peak := Highest(points, i, j);
    FallsLater(points, i + 1, peak + 1);
    if peak != j - 1 {
      FallsBetween(points, peak, j - 1);
    }
    FallsLater(points, peak + 1, j);
    if j < |points| {
      PeaksFall(points, width, j);
      FallsLater(points, j, j + 1);
    } else {
      assert EarlyPeaks(points, width, j) == 0;
    }
  }

  /** Points picked in order fall no more often than all of them. */
  lemma {:induction false} PickFalls(points: seq<SeriesPoint>, indices: seq<nat>, n: nat)
    requires Ascends(indices, |points|) && n <= |indices|
    ensures Falls(Pick(points, indices), n) <= if n == 0 then 0 else Falls(points, indices[n - 1] + 1)
  {
    if n > 1 {
      PickFalls(points, indices, n - 1);
      var i, j := indices[n - 2], indices[n - 1];
      FallsLater(points, i + 1, j + 1);
      if points[j].percent <= points[i].percent {
        FallsBetween(points, i, j);
      }
    }
  }

  lemma ThinFalls(points: seq<SeriesPoint>, width: Time)
    requires width > 0
    ensures Falls(Thin(points, width), |Thin(points, width)|) <= Falls(points, |points|)
  {
    var indices := Kept(points, width, 0);
    KeptInRange(points, width, 0);
    KeptIncreases(points, width, 0);
    hide Kept, Falls;
    assert Ascends(indices, |points|) && Thin(points, width) == Pick(points, indices);
    hide Thin;
    PickedFalls(points, indices);
  }

  lemma PickedFalls(points: seq<SeriesPoint>, indices: seq<nat>)
    requires Ascends(indices, |points|)
    ensures Falls(Pick(points, indices), |indices|) <= Falls(points, |points|)
  {
    hide Falls, Pick;
    PickFalls(points, indices, |indices|);
    if indices != [] {
      FallsLater(points, indices[|indices| - 1] + 1, |points|);
    }
  }

  /** What keeps the documented bound, in the series' own terms: a series that
      rises from point to point but for fewer than 1000 falls is thinned to at
      most 2000 points. */
  lemma FewFallsFit(points: seq<SeriesPoint>)
    requires Chronological(points) && Falls(points, |points|) < 1000
    ensures |Thinned(points)| <= MAX_POINTS
  {
    ThinnedSize(points);
    var minutes := Thin(points, MINUTE);
    if |minutes| > MAX_POINTS {
      ThinChronological(points, MINUTE);
      ThinFalls(points, MINUTE);
      PeaksFall(minutes, WiderBucket(minutes), 0);
    }
    hide Falls, Thin, Thinned, Runs, EarlyPeaks;
  }

  // ----------------------------------------------------------- counterexamples

  /** Two readings a minute, on the minute, the higher one first. */
  function Sawtooth(n: nat): seq<SeriesPoint> {
    seq(2 * n, i requires 0 <= i < 2 * n => SeriesPoint((i / 2 + 1) * MINUTE, if i % 2 == 0 then 1.0 else 0.0))
  }

  /** Points in pairs that share a bucket with no other, the higher first. */
  ghost predicate Pairs(points: seq<SeriesPoint>, width: Time)
    requires width > 0
  {
    && |points| % 2 == 0
    && (forall m :: 0 <= m < |points| / 2 ==>
          BucketOf(points[2 * m], width) == BucketOf(points[2 * m + 1], width)
          && points[2 * m].percent > points[2 * m + 1].percent)
    && (forall m :: 0 < m < |points| / 2 ==> BucketOf(points[2 * m - 1], width) != BucketOf(points[2 * m], width))
  }

  lemma PairRun(points: seq<SeriesPoint>, width: Time, m: nat)
    requires width > 0 && Pairs(points, width) && 2 * m < |points|
    ensures 2 * m + 2 <= |points| && RunEnd(points, width, 2 * m, 2 * m + 1) == 2 * m + 2
    ensures Highest(points, 2 * m, 2 * m + 2) == 2 * m
  {
    hide Quotient;
    var i := 2 * m;
    assert BucketOf(points[2 * m], width) == BucketOf(points[2 * m + 1], width);
    if i + 2 < |points| {
      assert BucketOf(points[2 * (m + 1) - 1], width) != BucketOf(points[2 * (m + 1)], width);
    }
    assert RunEnd(points, width, i, i + 2) == i + 2;
    assert Highest(points, i, i + 1) == i;
  }

  /** i and every number after it up to n. */
  function UpFrom(i: nat, n: nat): seq<nat>
    requires i <= n
    decreases n - i
  {
    if i == n then [] else [i] + UpFrom(i + 1, n)
  }

  lemma {:induction false} UpFromAt(i: nat, n: nat)
    requires i <= n
    ensures |UpFrom(i, n)| == n - i && forall k :: 0 <= k < n - i ==> UpFrom(i, n)[k] == i + k
    decreases n - i
  {
    if i < n {
      UpFromAt(i + 1, n);
    }
  }

  lemma AllThin(points: seq<SeriesPoint>, width: Time)
    requires width > 0 && Kept(points, width, 0) == UpFrom(0, |points|)
    ensures Thin(points, width) == points
  {
    UpFromAt(0, |points|);
    KeptInRange(points, width, 0);
    hide Kept, UpFrom;
  }

  /** Of pairs, every point is kept. */
  lemma {:induction false} PairsKept(points: seq<SeriesPoint>, width: Time, m: nat)
    requires width > 0 && Pairs(points, width) && 2 * m <= |points|
    ensures Kept(points, width, 2 * m) == UpFrom(2 * m, |points|)
    decreases |points| - m
  {
    hide Pairs, Kept, UpFrom;
    if 2 * m == |points| {
      NothingKept(points, width);
    } else {
      PairStep(points, width, m);
      PairsKept(points, width, m + 1);
      UpFromTwo(2 * m, |points|);
    }
  }

  lemma NothingKept(points: seq<SeriesPoint>, width: Time)
    requires width > 0
    ensures Kept(points, width, |points|) == [] && UpFrom(|points|, |points|) == []
  {
  }

  lemma UpFromTwo(i: nat, n: nat)
    requires i + 2 <= n
    ensures UpFrom(i, n) == [i, i + 1] + UpFrom(i + 2, n)
  {
    assert UpFrom(i, n) == [i] + UpFrom(i + 1, n) && UpFrom(i + 1, n) == [i + 1] + UpFrom(i + 2, n);
    hide UpFrom;
    ConsTwo(i, i + 1, UpFrom(i + 2, n));
  }

  lemma ConsTwo<T>(x: T, y: T, rest: seq<T>)
    ensures [x] + ([y] + rest) == [x, y] + rest
  {
  }

  lemma PairStep(points: seq<SeriesPoint>, width: Time, m: nat)
    requires width > 0 && Pairs(points, width) && 2 * m < |points|
    ensures 2 * (m + 1) <= |points|
    ensures Kept(points, width, 2 * m) == [2 * m, 2 * m + 1] + Kept(points, width, 2 * (m + 1))
  {
    PairRun(points, width, m);
    hide Quotient, Pairs, RunEnd, Highest;
  }

  lemma PairsThin(points: seq<SeriesPoint>, width: Time)
    requires width > 0 && Pairs(points, width)
    ensures Thin(points, width) == points
  {
    hide Pairs, Kept;
    PairsKept(points, width, 0);
    AllThin(points, width);
  }

  lemma SawtoothBucket(n: nat, width: Time, m: nat)
    requires m < n && (width == MINUTE || (width == MINUTE + 1 && n <= MINUTE))
    ensures var bucket := if width == MINUTE then m + 1 else m;
            BucketOf(Sawtooth(n)[2 * m], width) == bucket && BucketOf(Sawtooth(n)[2 * m + 1], width) == bucket
    ensures Sawtooth(n)[2 * m].percent == 1.0 && Sawtooth(n)[2 * m + 1].percent == 0.0
  {
    assert (2 * m) / 2 == m && (2 * m + 1) / 2 == m;
    var at := (m + 1) * MINUTE;
    assert Sawtooth(n)[2 * m].at == at && Sawtooth(n)[2 * m + 1].at == at;
    if width == MINUTE {
      DivUnique(at, width, m + 1, 0);
    } else {
      DivUnique(at, width, m, MINUTE - m);
    }
  }

  lemma SawtoothPairs(n: nat, width: Time)
    requires n > 0 && (width == MINUTE || (width == MINUTE + 1 && n <= MINUTE))
    ensures Pairs(Sawtooth(n), width)
  {
    var points := Sawtooth(n);
    hide BucketOf;
    forall m | 0 <= m < n
      ensures BucketOf(points[2 * m], width) == BucketOf(points[2 * m + 1], width)
      ensures points[2 * m].percent > points[2 * m + 1].percent
      ensures m > 0 ==> BucketOf(points[2 * m - 1], width) != BucketOf(points[2 * m], width)
    {
      SawtoothBucket(n, width, m);
      if m > 0 {
        SawtoothBucket(n, width, m - 1);
        assert 2 * (m - 1) + 1 == 2 * m - 1;
      }
    }
    hide Sawtooth;
  }

  /** 1001 minutes of two readings each come out of ThinSeries as they are:
      2002 points, where its documentation promises at most 2000. */
  lemma SawtoothStays()
    ensures Chronological(Sawtooth(1001)) && Thinned(Sawtooth(1001)) == Sawtooth(1001) && |Sawtooth(1001)| == 2002
  {
    var points := Sawtooth(1001);
    assert points[0].at == MINUTE && points[2001].at == 1001 * MINUTE;
    DivUnique(1000 * MINUTE, 1000, MINUTE, 0);
    assert WiderBucket(points) == MINUTE + 1;
    SawtoothPairs(1001, MINUTE);
    SawtoothPairs(1001, MINUTE + 1);
    hide Sawtooth, Pairs;
    PairsThin(points, MINUTE);
    PairsThin(points, MINUTE + 1);
  }

  /** A session's drop to 0 does not survive when the next session opens in
      the same minute: the drop is neither the highest nor the last point. */
  lemma DropIsLost()
    ensures var points := [SeriesPoint(0, 50.0), SeriesPoint(30 * SECOND, 0.0), SeriesPoint(40 * SECOND, 10.0)];
            Chronological(points) && Thinned(points) == [SeriesPoint(0, 50.0), SeriesPoint(40 * SECOND, 10.0)]
  {
    var points := [SeriesPoint(0, 50.0), SeriesPoint(30 * SECOND, 0.0), SeriesPoint(40 * SECOND, 10.0)];
    assert RunEnd(points, MINUTE, 0, 3) == 3;
    assert RunEnd(points, MINUTE, 0, 2) == 3;
    assert RunEnd(points, MINUTE, 0, 1) == 3;
    assert Highest(points, 0, 1) == 0;
    assert Highest(points, 0, 2) == 0;
    assert Highest(points, 0, 3) == 0;
    assert Kept(points, MINUTE, 3) == [];
    assert Kept(points, MINUTE, 0) == [0, 2];
  }

  /** Nor does a session's peak when a higher one follows in the same minute. */
  lemma PeakIsLost()
    ensures var points := [SeriesPoint(0, 50.0), SeriesPoint(30 * SECOND, 0.0), SeriesPoint(40 * SECOND, 60.0)];
            Chronological(points) && Thinned(points) == [SeriesPoint(40 * SECOND, 60.0)]
  {
    var points := [SeriesPoint(0, 50.0), SeriesPoint(30 * SECOND, 0.0), SeriesPoint(40 * SECOND, 60.0)];
    assert RunEnd(points, MINUTE, 0, 3) == 3;
    assert RunEnd(points, MINUTE, 0, 2) == 3;
    assert RunEnd(points, MINUTE, 0, 1) == 3;
    assert Highest(points, 0, 1) == 0;
    assert Highest(points, 0, 2) == 0;
    assert Highest(points, 0, 3) == 2;
    assert Kept(points, MINUTE, 3) == [];
    assert Kept(points, MINUTE, 0) == [2];
  }

  /** A use and a drop in turn, each in a minute of its own. */
  function Alternating(n: nat): seq<SeriesPoint> {
    seq(n, i requires 0 <= i < n => SeriesPoint((i + 1) * MINUTE, if i % 2 == 0 then 1.0 else 0.0))
  }

  /** Each point has its bucket to itself. */
  ghost predicate Alone(points: seq<SeriesPoint>, width: Time)
    requires width > 0
  {
    forall i, j :: 0 <= i < j < |points| ==> BucketOf(points[i], width) != BucketOf(points[j], width)
  }

  lemma AloneStep(points: seq<SeriesPoint>, width: Time, i: nat)
    requires width > 0 && Alone(points, width) && i < |points|
    ensures Kept(points, width, i) == [i] + Kept(points, width, i + 1)
  {
    hide BucketOf;
    assert RunEnd(points, width, i, i + 1) == i + 1;
    assert Highest(points, i, i + 1) == i;
  }

  lemma {:induction false} AloneKept(points: seq<SeriesPoint>, width: Time, i: nat)
    requires width > 0 && Alone(points, width) && i <= |points|
    ensures Kept(points, width, i) == UpFrom(i, |points|)
    decreases |points| - i
  {
    hide Alone, Kept;
    if i == |points| {
      NothingKept(points, width);
    } else {
      AloneStep(points, width, i);
      AloneKept(points, width, i + 1);
    }
  }

  lemma AloneThin(points: seq<SeriesPoint>, width: Time)
    requires width > 0 && Alone(points, width)
    ensures Thin(points, width) == points
  {
    hide Alone, Kept;
    AloneKept(points, width, 0);
    AllThin(points, width);
  }

  lemma AlternatingMinutes(n: nat)
    ensures Chronological(Alternating(n)) && Alone(Alternating(n), MINUTE)
  {
    var points := Alternating(n);
    forall i | 0 <= i < n ensures BucketOf(points[i], MINUTE) == i + 1 {
      DivUnique((i + 1) * MINUTE, MINUTE, i + 1, 0);
    }
    hide BucketOf;
  }

  /** The first three points share the second pass's first bucket. */
  lemma AlternatingBuckets()
    ensures var points := Alternating(4001);
            && Chronological(points) && Alone(points, MINUTE) && |points| == 4001 && NonNegative(points)
            && WiderBucket(points) == 4 * MINUTE + 1 && points[1].percent == 0.0 < points[0].percent
            && forall i :: 0 <= i < 3 ==> BucketOf(points[i], 4 * MINUTE + 1) == 0
  {
    var points := Alternating(4001);
    AlternatingMinutes(4001);
    assert points[0].at == MINUTE && points[4000].at == 4001 * MINUTE;
    DivUnique(4000 * MINUTE, 1000, 4 * MINUTE, 0);
    forall i | 0 <= i < 3 ensures BucketOf(points[i], 4 * MINUTE + 1) == 0 {
      DivUnique((i + 1) * MINUTE, 4 * MINUTE + 1, 0, (i + 1) * MINUTE);
    }
  }

  lemma SecondPassDrops(points: seq<SeriesPoint>)
    requires Chronological(points) && NonNegative(points) && Alone(points, MINUTE) && |points| > MAX_POINTS
    requires points[1].percent == 0.0 < points[0].percent
    requires forall i :: 0 <= i < 3 ==> BucketOf(points[i], WiderBucket(points)) == 0
    ensures 1 in Kept(points, MINUTE, 0) && 1 !in ThinnedIndices(points)
  {
    var width := WiderBucket(points);
    AloneThin(points, MINUTE);
    AloneKept(points, MINUTE, 0);
    UpFromAt(0, |points|);
    hide Alone, Kept, Thin, WiderBucket, UpFrom, BucketOf, KeptAtZero, ThinnedIndices, Chronological, NonNegative;
    assert Kept(points, MINUTE, 0)[1] == 1;
    MiddleDrop(points, width);
    DropSurvives(points, 1);
    forall m ensures !DropKeptAgain(points, 1, m) {
      if DropKeptAgain(points, 1, m) {
        KeptAsItself(points, 1, m);
      }
    }
    hide DropKeptAgain;
  }

  lemma KeptAsItself(points: seq<SeriesPoint>, k: nat, m: int)
    requires Chronological(points) && |points| > MAX_POINTS && Thin(points, MINUTE) == points
    requires Kept(points, MINUTE, 0) == UpFrom(0, |points|) && DropKeptAgain(points, k, m)
    ensures k < |points| && KeptAtZero(points, WiderBucket(points), k)
  {
    hide Kept, UpFrom, Thin, KeptAtZero, WiderBucket, Chronological;
    UpFromAt(0, |points|);
    assert UpFrom(0, |points|)[m] == m;
  }

  lemma MiddleDrop(points: seq<SeriesPoint>, width: Time)
    requires width > 0 && |points| > 2 && points[1].percent == 0.0 < points[0].percent
    requires forall i :: 0 <= i < 3 ==> BucketOf(points[i], width) == 0
    ensures !KeptAtZero(points, width, 1)
  {
    assert SameRun(points, width, 1, 0);
    hide BucketOf;
  }

  /** A drop that has its minute to itself, as most sessions' ends do, can be
      lost to the second pass: here its buckets hold four minutes. */
  lemma LateDropIsLost()
    ensures var points := Alternating(4001);
            && Chronological(points) && points[1].percent == 0.0
            && 1 in Kept(points, MINUTE, 0) && 1 !in ThinnedIndices(points)
  {
    AlternatingBuckets();
    hide Alternating;
    SecondPassDrops(Alternating(4001));
    hide *;
  }
}
