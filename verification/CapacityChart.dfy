/** What the capacity chart says of a limit's use: seriesDTO of
    internal/server/query/capacity.go, which cuts the times of a series to whole
    seconds, and stepMax, readingMax, x and hover of
    internal/server/admin/capacitychart.go. The chart's times are Unix seconds. */
module CapacityChart {
  import opened Records
  import opened Series
  import Thinning

  datatype Point = Point(at: real, value: real)

  /** In time order. Points of one second come in any order of their values. */
  ghost predicate Timed(points: seq<Point>) {
    forall i, j :: 0 <= i < j < |points| ==> points[i].at <= points[j].at
  }

  /** The step function: the last point at or before t, or nothing. */
  function HeldAt(points: seq<Point>, t: real): real {
    if points == [] then 0.0
    else if points[|points| - 1].at <= t then points[|points| - 1].value
    else HeldAt(points[..|points| - 1], t)
  }

  /** Point k is the one held at t. */
  lemma {:induction false} HeldIs(points: seq<Point>, t: real, k: nat)
    requires k <= |points|
    requires k > 0 ==> points[k - 1].at <= t
    requires forall j :: k <= j < |points| ==> t < points[j].at
    ensures HeldAt(points, t) == if k == 0 then 0.0 else points[k - 1].value
  {
    if k < |points| {
      HeldIs(points[..|points| - 1], t, k);
    }
  }

  /** Whether the search is past p: after t, or already at it. */
  predicate Reached(p: Point, t: real, orAt: bool) {
    if orAt then p.at >= t else p.at > t
  }

  /** Go's sort.Search over the points' times. */
  method Search(points: seq<Point>, t: real, orAt: bool) returns (i: nat)
    requires Timed(points)
    ensures i <= |points|
    ensures forall j :: 0 <= j < i ==> !Reached(points[j], t, orAt)
    ensures forall j :: i <= j < |points| ==> Reached(points[j], t, orAt)
  {
    var lo, hi := 0, |points|;
    while lo < hi
      invariant 0 <= lo <= hi <= |points|
      invariant forall j :: 0 <= j < lo ==> !Reached(points[j], t, orAt)
      invariant forall j :: hi <= j < |points| ==> Reached(points[j], t, orAt)
    {
      var mid := (lo + hi) / 2;
      if Reached(points[mid], t, orAt) {
        hi := mid;
      } else {
        lo := mid + 1;
      }
    }
    i := lo;
  }

  // -------------------------------------------------------------------- peaks

  /** most is the highest value the step function takes in [from, to). */
  ghost predicate IsMost(most: real, points: seq<Point>, from: real, to: real) {
    && (forall t :: from <= t < to ==> HeldAt(points, t) <= most)
    && exists t :: from <= t < to && HeldAt(points, t) == most
  }

  ghost predicate Within(points: seq<Point>, k: int, from: real, to: real) {
    0 <= k < |points| && from < points[k].at < to
  }

  /** most is the highest of the value held at from and the points after it,
      of which the step function takes only the last of each moment. */
  ghost predicate IsPeak(most: real, points: seq<Point>, from: real, to: real) {
    && HeldAt(points, from) <= most
    && (forall k :: Within(points, k, from, to) ==> points[k].value <= most)
    && (most == HeldAt(points, from) || exists k :: Within(points, k, from, to) && points[k].value == most)
  }

  /** Point k is the last of its moment, so the step function takes its value. */
  ghost predicate Settled(points: seq<Point>, k: int)
    requires 0 <= k < |points|
  {
    forall j :: k < j < |points| ==> points[k].at < points[j].at
  }

  /** No point of (from, to) is above all that the step function takes there. */
  ghost predicate NoneHidden(points: seq<Point>, from: real, to: real) {
    forall k :: Within(points, k, from, to) ==>
      || points[k].value <= HeldAt(points, from)
      || exists j :: Within(points, j, from, to) && Settled(points, j) && points[k].value <= points[j].value
  }

  /** What is held at t: the point before k, the last at or before t. */
  lemma HeldPoint(points: seq<Point>, t: real) returns (k: nat)
    requires Timed(points)
    ensures k <= |points| && (k > 0 ==> points[k - 1].at <= t) && (forall j :: k <= j < |points| ==> t < points[j].at)
    ensures HeldAt(points, t) == if k == 0 then 0.0 else points[k - 1].value
    ensures k > 0 ==> Settled(points, k - 1)
  {
    k := |points|;
    while k > 0 && points[k - 1].at > t
      invariant 0 <= k <= |points|
      invariant forall j :: k <= j < |points| ==> t < points[j].at
    {
      k := k - 1;
    }
    HeldIs(points, t, k);
  }

  lemma SettledIsHeld(points: seq<Point>, k: nat)
    requires k < |points| && Settled(points, k)
    ensures HeldAt(points, points[k].at) == points[k].value
  {
    HeldIs(points, points[k].at, k + 1);
  }

  /** What is held inside a period was held at its start or is a settled point of it. */
  lemma HeldWithin(points: seq<Point>, from: real, to: real, t: real)
    requires Timed(points) && from <= t < to
    ensures || HeldAt(points, t) == HeldAt(points, from)
            || exists k :: Within(points, k, from, to) && Settled(points, k) && HeldAt(points, t) == points[k].value
  {
    var k := HeldPoint(points, t);
    if k > 0 && points[k - 1].at > from {
      assert Within(points, k - 1, from, to);
    } else {
      HeldIs(points, from, k);
    }
  }

  /** The peak is never below what is held, and it is held exactly when no point
      is hidden by a lower one of its moment. */
  lemma PeakIsMost(most: real, points: seq<Point>, from: real, to: real)
    requires Timed(points) && from < to && IsPeak(most, points, from, to)
    ensures forall t :: from <= t < to ==> HeldAt(points, t) <= most
    ensures IsMost(most, points, from, to) <==> NoneHidden(points, from, to)
  {
    forall t | from <= t < to ensures HeldAt(points, t) <= most {
      PeakAbove(most, points, from, to, t);
    }
    if IsMost(most, points, from, to) {
      HeldPeakHidesNone(most, points, from, to);
    }
    if NoneHidden(points, from, to) {
      var t := PeakIsHeld(most, points, from, to);
    }
    hide *;
  }

  lemma PeakAbove(most: real, points: seq<Point>, from: real, to: real, t: real)
    requires Timed(points) && IsPeak(most, points, from, to) && from <= t < to
    ensures HeldAt(points, t) <= most
  {
    hide HeldAt, Timed, Settled;
    HeldWithin(points, from, to, t);
  }

  lemma HeldPeakHidesNone(most: real, points: seq<Point>, from: real, to: real)
    requires Timed(points) && IsPeak(most, points, from, to) && IsMost(most, points, from, to)
    ensures NoneHidden(points, from, to)
  {
    hide HeldAt, Timed, Settled;
    var t :| from <= t < to && HeldAt(points, t) == most;
    HeldWithin(points, from, to, t);
  }

  lemma PeakIsHeld(most: real, points: seq<Point>, from: real, to: real) returns (t: real)
    requires Timed(points) && from < to && IsPeak(most, points, from, to) && NoneHidden(points, from, to)
    ensures from <= t < to && HeldAt(points, t) == most
  {
    hide HeldAt, Timed, Settled;
    t := from;
    if most != HeldAt(points, from) {
      var k :| Within(points, k, from, to) && points[k].value == most;
      var j :| Within(points, j, from, to) && Settled(points, j) && points[k].value <= points[j].value;
      SettledIsHeld(points, j);
      t := points[j].at;
    }
  }

  /** Points that rise within each moment hide none. */
  lemma RisingHidesNone(points: seq<Point>, from: real, to: real)
    requires Timed(points)
    requires forall i, j :: 0 <= i < j < |points| && points[i].at == points[j].at ==> points[i].value <= points[j].value
    ensures NoneHidden(points, from, to)
  {
    forall k | Within(points, k, from, to)
      ensures exists j :: Within(points, j, from, to) && Settled(points, j) && points[k].value <= points[j].value
    {
      var j := SettlesHigher(points, k);
    }
    hide *;
  }

  lemma SettlesHigher(points: seq<Point>, k: nat) returns (j: nat)
    requires Timed(points) && k < |points|
    requires forall i, j :: 0 <= i < j < |points| && points[i].at == points[j].at ==> points[i].value <= points[j].value
    ensures k <= j < |points| && points[j].at == points[k].at && Settled(points, j)
        && points[k].value <= points[j].value
  {
    var n := HeldPoint(points, points[k].at);
    j := n - 1;
    hide HeldAt, Settled;
  }

  /** The most use a step series held in [from, to), but for the points that a
      lower one of the same second hides: stepMax counts them as well. */
  method StepMax(points: seq<Point>, from: real, to: real) returns (most: real)
    requires Timed(points)
    ensures IsPeak(most, points, from, to)
    ensures from < to ==> forall t :: from <= t < to ==> HeldAt(points, t) <= most
    ensures from < to ==> (IsMost(most, points, from, to) <==> NoneHidden(points, from, to))
  {
    var i := Search(points, from, false);
    ghost var first := i;
    HeldIs(points, from, first);
    most := 0.0;
    if i > 0 {
      most := points[i - 1].value;
    }
    ghost var held := most;
    while i < |points| && points[i].at < to
      invariant first <= i <= |points| && held <= most
      invariant forall j :: first <= j < i ==> Within(points, j, from, to) && points[j].value <= most
      invariant most == held || exists j :: first <= j < i && points[j].value == most
    {
      most := if points[i].value > most then points[i].value else most;
      i := i + 1;
    }
    if from < to {
      PeakIsMost(most, points, from, to);
    }
  }

  /** The highest reading in [from, to), if there is one; the loop starts from 0. */
  method ReadingMax(readings: seq<Point>, from: real, to: real) returns (most: real, found: bool)
    requires Timed(readings)
    ensures found <==> exists i :: 0 <= i < |readings| && from <= readings[i].at < to
    ensures most > 0.0 ==> exists i :: 0 <= i < |readings| && from <= readings[i].at < to && readings[i].value == most
    ensures forall i :: 0 <= i < |readings| && from <= readings[i].at < to ==> readings[i].value <= most
    ensures most >= 0.0
  {
    var i := Search(readings, from, true);
    most, found := 0.0, false;
    ghost var first := i;
    while i < |readings| && readings[i].at < to
      invariant first <= i <= |readings| && (found <==> first < i) && most >= 0.0
      invariant forall j :: first <= j < i ==> from <= readings[j].at < to && readings[j].value <= most
      invariant most > 0.0 ==> exists j :: first <= j < i && readings[j].value == most
    {
      most := if readings[i].value > most then readings[i].value else most;
      found := true;
      i := i + 1;
    }
  }

  // ------------------------------------------------------------------ seconds

  /** math.Round, halves away from zero. */
  function Round(x: real): int {
    if x >= 0.0 then (x + 0.5).Floor else -(0.5 - x).Floor
  }

  lemma RoundIsNear(x: real, y: real)
    ensures -0.5 <= Round(x) as real - x <= 0.5
    ensures x > 0.0 ==> Round(x) as real - x > -0.5
    ensures x < 0.0 ==> Round(x) as real - x < 0.5
    ensures x <= y ==> Round(x) <= Round(y)
  {
  }

  /** A use to a tenth of a percent. */
  function Tenth(percent: real): (tenth: real)
    ensures -0.05 <= tenth - percent <= 0.05 && (tenth * 10.0).Floor as real == tenth * 10.0
  {
    RoundIsNear(percent * 10.0, percent * 10.0);
    Round(percent * 10.0) as real / 10.0
  }

  /** A point as the report carries it: whole Unix seconds, use to a tenth. */
  function Mark(p: SeriesPoint): (mark: Point)
    ensures mark.at == mark.at.Floor as real && mark.at <= p.at as real / 1_000_000_000.0 < mark.at + 1.0
  {
    Point((p.at / SECOND) as real, Tenth(p.percent))
  }

  lemma MarksOrdered(p: SeriesPoint, q: SeriesPoint)
    requires p.at <= q.at
    ensures Mark(p).at <= Mark(q).at
  {
    hide Tenth;
    assert p.at / SECOND <= q.at / SECOND;
  }

  function SeriesDTO(points: seq<SeriesPoint>): (dto: seq<Point>)
    ensures |dto| == |points|
  {
    seq(|points|, k requires 0 <= k < |points| => Mark(points[k]))
  }

  /** The chart's points come in time order, as its search needs. */
  lemma SeriesTimed(points: seq<SeriesPoint>)
    requires Chronological(points)
    ensures Timed(SeriesDTO(points))
  {
    hide Mark;
    forall i, j | 0 <= i < j < |points| ensures SeriesDTO(points)[i].at <= SeriesDTO(points)[j].at {
      MarksOrdered(points[i], points[j]);
    }
  }

  /** A session's last request at 10:00:00.2 and its end at 10:00:00.7. */
  const DROP: seq<SeriesPoint> :=
    [SeriesPoint(36_000_200_000_000, 50.0), SeriesPoint(36_000_700_000_000, 0.0)]

  /** Both points survive thinning and fall in one second: stepMax answers 50,
      which the drawn line never shows. */
  lemma SecondHidesPeak()
    ensures Chronological(DROP) && Thinning.Thinned(DROP) == DROP
    ensures SeriesDTO(DROP) == [Point(36_000.0, 50.0), Point(36_000.0, 0.0)]
    ensures IsPeak(50.0, SeriesDTO(DROP), 35_000.0, 37_000.0) && !IsMost(50.0, SeriesDTO(DROP), 35_000.0, 37_000.0)
  {
    DropStays();
    DropInSeconds();
    HiddenPeak([Point(36_000.0, 50.0), Point(36_000.0, 0.0)]);
    hide *;
  }

  lemma HiddenPeak(dto: seq<Point>)
    requires dto == [Point(36_000.0, 50.0), Point(36_000.0, 0.0)]
    ensures IsPeak(50.0, dto, 35_000.0, 37_000.0) && !IsMost(50.0, dto, 35_000.0, 37_000.0)
  {
    hide HeldAt;
    HeldIs(dto, 35_000.0, 0);
    assert Within(dto, 0, 35_000.0, 37_000.0);
    forall t | 35_000.0 <= t < 37_000.0 ensures HeldAt(dto, t) != 50.0 {
      HeldIs(dto, t, if t < 36_000.0 then 0 else 2);
    }
  }

  lemma DropInSeconds()
    ensures SeriesDTO(DROP) == [Point(36_000.0, 50.0), Point(36_000.0, 0.0)]
  {
    assert Round(500.0) == 500 && Round(0.0) == 0;
    assert Tenth(50.0) == 50.0 && Tenth(0.0) == 0.0;
  }

  lemma DropStays()
    ensures Chronological(DROP) && Thinning.Thinned(DROP) == DROP
  {
    assert Thinning.BucketOf(DROP[0], MINUTE) == 600 && Thinning.BucketOf(DROP[1], MINUTE) == 600;
    assert Thinning.Pairs(DROP, MINUTE);
    Thinning.PairsThin(DROP, MINUTE);
  }

  /** The series' point before k is the one in use at t. */
  lemma UsedPoint(points: seq<SeriesPoint>, t: Time) returns (k: nat)
    requires Chronological(points)
    ensures k <= |points| && (k > 0 ==> points[k - 1].at <= t) && (forall j :: k <= j < |points| ==> t < points[j].at)
    ensures UseAt(points, t) == if k == 0 then 0.0 else points[k - 1].percent
  {
    k := |points|;
    assert points[..k] == points;
    while k > 0 && points[k - 1].at > t
      invariant 0 <= k <= |points|
      invariant forall j :: k <= j < |points| ==> t < points[j].at
      invariant UseAt(points, t) == UseAt(points[..k], t)
    {
      assert points[..k][..k - 1] == points[..k - 1];
      k := k - 1;
    }
    if k > 0 {
      assert points[..k][k - 1] == points[k - 1];
    }
  }

  /** At every moment of a second the chart's line is at the use of its end. */
  lemma LineIsSecondsEnd(points: seq<SeriesPoint>, second: int, t: real)
    requires Chronological(points) && second as real <= t < (second + 1) as real
    ensures HeldAt(SeriesDTO(points), t) == Tenth(UseAt(points, second * SECOND + SECOND - 1))
  {
    var dto := SeriesDTO(points);
    var k := UsedPoint(points, second * SECOND + SECOND - 1);
    forall j | k <= j < |points| ensures t < dto[j].at {
      assert points[j].at / SECOND >= second + 1;
    }
    if k > 0 {
      assert points[k - 1].at / SECOND <= second;
    }
    HeldIs(dto, t, k);
  }

  /** Counting hidden points as well, stepMax misses nothing: from the end of
      the second it starts in, the series itself is never used more. */
  lemma PeakCoversSeries(points: seq<SeriesPoint>, from: real, to: real, most: real, t: Time)
    requires Chronological(points) && IsPeak(most, SeriesDTO(points), from, to)
    requires from + 1.0 <= t as real / 1_000_000_000.0 < to
    ensures Tenth(UseAt(points, t)) <= most
  {
    var dto := SeriesDTO(points);
    var k := UsedPoint(points, t);
    assert forall j :: k <= j < |dto| ==> from < dto[j].at;
    assert k > 0 ==> dto[k - 1].at < to && dto[k - 1].value == Tenth(points[k - 1].percent);
    hide UseAt, Mark, SeriesDTO, HeldAt, Tenth;
    if k > 0 && dto[k - 1].at > from {
      assert Within(dto, k - 1, from, to);
    } else {
      HeldIs(dto, from, k);
      assert k == 0 ==> UseAt(points, t) == 0.0;
      TenthOfNone();
    }
  }

  lemma TenthOfNone()
    ensures Tenth(0.0) == 0.0
  {
    assert Round(0.0) == 0;
  }

  // -------------------------------------------------------------------- hover

  const SLICES: int := 60

  /** The span of a tip and the most use and the highest reading in it. */
  datatype Tip = Tip(x: real, w: real, use: Option<real>, reading: Option<real>)

  /** A time as a percentage of the chart's width. */
  function X(at: real, start: real, end: real): real
    requires start < end
  {
    var x := (at - start) / (end - start) * 100.0;
    var right := if x > 0.0 then x else 0.0;
    if right < 100.0 then right else 100.0
  }

  /** Before the period it is its left edge, and after it its right one. */
  lemma XWithin(at: real, start: real, end: real)
    requires start < end
    ensures at <= start ==> X(at, start, end) == 0.0
    ensures at >= end ==> X(at, start, end) == 100.0
    ensures start <= at <= end ==> X(at, start, end) * (end - start) == (at - start) * 100.0
  {
    var length := end - start;
    var u := (at - start) / length;
    PartIs(at - start, length);
    XIs(at, start, end, u);
    hide X;
    ShareOrder(u, 0.0, length);
    ShareOrder(0.0, u, length);
    ShareOrder(u, 1.0, length);
    ShareOrder(1.0, u, length);
    Percented(u, length);
  }

  lemma PartIs(part: real, length: real)
    requires length > 0.0
    ensures part / length * length == part
  {
  }

  lemma XIs(at: real, start: real, end: real, u: real)
    requires start < end && u == (at - start) / (end - start)
    ensures X(at, start, end) == if u <= 0.0 then 0.0 else if u >= 1.0 then 100.0 else u * 100.0
  {
  }

  lemma Percented(u: real, length: real)
    ensures u * 100.0 * length == u * length * 100.0
  {
  }

  /** How far into a period of the length slice i starts. */
  function Offset(length: real, i: int): real {
    i as real * (length / 60.0)
  }

  function SliceStart(start: real, end: real, i: int): real {
    start + Offset(end - start, i)
  }

  ghost predicate InSlice(t: real, start: real, end: real, i: int) {
    SliceStart(start, end, i) <= t < SliceStart(start, end, i + 1)
  }

  /** A tip lies where the chart draws its slice's times, and tells the peak and
      the highest reading of it. */
  ghost predicate TipOf(tip: Tip, points: seq<Point>, readings: seq<Point>, start: real, end: real, i: int) {
    && tip.x == i as real * 100.0 / 60.0 && tip.w == 100.0 / 60.0
    && TellsUse(tip.use, points, SliceStart(start, end, i), SliceStart(start, end, i + 1))
    && TellsReading(tip.reading, readings, SliceStart(start, end, i), SliceStart(start, end, i + 1))
  }

  /** The peak, left out when it is not above 0. */
  ghost predicate TellsUse(use: Option<real>, points: seq<Point>, from: real, to: real) {
    exists most :: IsPeak(most, points, from, to) && use == if most > 0.0 then Some(most) else None
  }

  /** The highest reading, and at least 0, when there is one. */
  ghost predicate TellsReading(reading: Option<real>, readings: seq<Point>, from: real, to: real) {
    && (reading.Some? <==> exists k :: 0 <= k < |readings| && from <= readings[k].at < to)
    && (reading.Some? ==>
          && reading.value >= 0.0
          && (forall k :: 0 <= k < |readings| && from <= readings[k].at < to ==> readings[k].value <= reading.value)
          && (reading.value > 0.0 ==>
                exists k :: 0 <= k < |readings| && from <= readings[k].at < to && readings[k].value == reading.value))
  }

  /** A tip leaves out a use of zero. */
  function Shown(use: Option<real>): real {
    if use.Some? then use.value else 0.0
  }

  lemma SliceEnd(start: real, end: real, i: int)
    ensures SliceStart(start, end, i + 1) == SliceStart(start, end, i) + (end - start) / 60.0
    ensures start < end ==> SliceStart(start, end, i) < SliceStart(start, end, i + 1)
  {
  }

  /** What a tip tells of [from, to). */
  method Tell(points: seq<Point>, readings: seq<Point>, from: real, to: real)
    returns (use: Option<real>, reading: Option<real>)
    requires Timed(points) && Timed(readings)
    ensures TellsUse(use, points, from, to) && TellsReading(reading, readings, from, to)
  {
    hide IsPeak, IsMost, NoneHidden, HeldAt, Timed;
    var most := StepMax(points, from, to);
    var highest, found := ReadingMax(readings, from, to);
    use := if most > 0.0 then Some(most) else None;
    reading := if found then Some(highest) else None;
  }

  method TipAt(points: seq<Point>, readings: seq<Point>, start: real, end: real, i: nat) returns (tip: Tip)
    requires Timed(points) && Timed(readings)
    ensures TipOf(tip, points, readings, start, end, i)
  {
    hide TellsUse, TellsReading, Timed;
    var from := start + i as real * ((end - start) / 60.0);
    var to := from + (end - start) / 60.0;
    SliceEnd(start, end, i);
    assert from == SliceStart(start, end, i) && to == SliceStart(start, end, i + 1);
    hide SliceStart;
    var use, reading := Tell(points, readings, from, to);
    tip := Tip(i as real * 100.0 / 60.0, 100.0 / 60.0, use, reading);
  }

  /** hover, for one line. */
  method Hover(points: seq<Point>, readings: seq<Point>, start: real, end: real) returns (tips: seq<Tip>)
    requires Timed(points) && Timed(readings)
    ensures |tips| == SLICES
    ensures forall i :: 0 <= i < SLICES ==> TipOf(tips[i], points, readings, start, end, i)
  {
    tips := [];
    for i := 0 to SLICES
      invariant |tips| == i
      invariant forall k :: 0 <= k < i ==> TipOf(tips[k], points, readings, start, end, k)
    {
      hide TipOf;
      var tip := TipAt(points, readings, start, end, i);
      tips := tips + [tip];
    }
  }

  lemma SliceOrder(start: real, end: real, i: int, j: int)
    requires start < end && i <= j
    ensures SliceStart(start, end, i) <= SliceStart(start, end, j)
  {
    var width := (end - start) / 60.0;
    assert i as real * width <= j as real * width;
  }

  /** The tips' slices tile the period: each moment of it is in one of them, and in no other. */
  lemma SlicesTile(start: real, end: real, t: real) returns (i: nat)
    requires start <= t < end
    ensures i < SLICES && InSlice(t, start, end, i)
    ensures forall j :: 0 <= j < SLICES && InSlice(t, start, end, j) ==> j == i
  {
    assert SliceStart(start, end, 0) == start && SliceStart(start, end, 60) == end;
    i := 0;
    while t >= SliceStart(start, end, i + 1)
      invariant 0 <= i < SLICES && SliceStart(start, end, i) <= t
      decreases SLICES - i
    {
      i := i + 1;
    }
    forall j | 0 <= j < SLICES && InSlice(t, start, end, j) ensures j == i {
      hide SliceStart;
      if j < i {
        SliceOrder(start, end, j + 1, i);
      } else if i < j {
        SliceOrder(start, end, i + 1, j);
      }
    }
  }

  /** The pointer's position picks the tip of the time the chart draws there. */
  lemma PointerFindsSlice(start: real, end: real, t: real, i: int)
    requires start <= t < end && 0 <= i < SLICES
    ensures InSlice(t, start, end, i) <==>
        i as real * 100.0 / 60.0 <= X(t, start, end) < i as real * 100.0 / 60.0 + 100.0 / 60.0
  {
    var length := end - start;
    var u := (t - start) / length;
    Share(t - start, length, u);
    OffsetShare(length, i, u);
    OffsetShare(length, i + 1, u);
    assert X(t, start, end) == u * 100.0;
    hide Offset, X;
  }

  lemma Share(part: real, length: real, u: real)
    requires 0.0 <= part < length && u == part / length
    ensures part == u * length && 0.0 <= u < 1.0
  {
    ShareOrder(u, 1.0, length);
    ShareOrder(u, 0.0, length);
  }

  /** A moment comes before a slice's start exactly when its share of the period does. */
  lemma OffsetShare(length: real, i: int, u: real)
    requires length > 0.0
    ensures u * length < Offset(length, i) <==> u < i as real / 60.0
  {
    var n := i as real;
    assert n * (length / 60.0) == n / 60.0 * length;
    ShareOrder(u, n / 60.0, length);
  }

  lemma ShareOrder(u: real, v: real, length: real)
    requires length > 0.0
    ensures u < v <==> u * length < v * length
  {
    if u < v {
      assert (v - u) * length > 0.0;
    } else {
      assert (u - v) * length >= 0.0;
    }
  }

  /** No tip is above the peak of the whole period, and none of what is held
      falls between the tips. */
  lemma TipsCoverPeriod(tips: seq<Tip>, points: seq<Point>, readings: seq<Point>, start: real, end: real, peak: real)
    requires Timed(points) && start < end && |tips| == SLICES && IsPeak(peak, points, start, end)
    requires forall i :: 0 <= i < SLICES ==> TipOf(tips[i], points, readings, start, end, i)
    ensures forall i :: 0 <= i < SLICES && tips[i].use.Some? ==> tips[i].use.value <= peak
    ensures forall t :: start <= t < end ==> exists i :: 0 <= i < SLICES && HeldAt(points, t) <= Shown(tips[i].use)
  {
    forall i | 0 <= i < SLICES && tips[i].use.Some? ensures tips[i].use.value <= peak {
      var most := TipPeak(tips[i], points, readings, start, end, i);
      SlicePeakBelow(most, peak, points, start, end, i);
    }
    forall t | start <= t < end ensures exists i :: 0 <= i < SLICES && HeldAt(points, t) <= Shown(tips[i].use) {
      var i := SlicesTile(start, end, t);
      var most := TipPeak(tips[i], points, readings, start, end, i);
      SliceEnd(start, end, i);
      PeakIsMost(most, points, SliceStart(start, end, i), SliceStart(start, end, i + 1));
    }
  }

  lemma TipPeak(tip: Tip, points: seq<Point>, readings: seq<Point>, start: real, end: real, i: int) returns (most: real)
    requires TipOf(tip, points, readings, start, end, i)
    ensures IsPeak(most, points, SliceStart(start, end, i), SliceStart(start, end, i + 1))
    ensures tip.use == if most > 0.0 then Some(most) else None
  {
    hide IsPeak, SliceStart, TellsUse, TellsReading;
    most := UsePeak(tip.use, points, SliceStart(start, end, i), SliceStart(start, end, i + 1));
  }

  lemma UsePeak(use: Option<real>, points: seq<Point>, from: real, to: real) returns (most: real)
    requires TellsUse(use, points, from, to)
    ensures IsPeak(most, points, from, to) && use == if most > 0.0 then Some(most) else None
  {
    hide IsPeak;
    most :| IsPeak(most, points, from, to) && use == if most > 0.0 then Some(most) else None;
  }

  lemma SliceBounds(start: real, end: real, i: int)
    requires start < end && 0 <= i < SLICES
    ensures start <= SliceStart(start, end, i) < SliceStart(start, end, i + 1) <= end
  {
    assert SliceStart(start, end, 0) == start && SliceStart(start, end, 60) == end;
    SliceEnd(start, end, i);
    SliceOrder(start, end, 0, i);
    SliceOrder(start, end, i + 1, 60);
  }

  lemma SlicePeakBelow(most: real, peak: real, points: seq<Point>, start: real, end: real, i: int)
    requires Timed(points) && start < end && 0 <= i < SLICES && IsPeak(peak, points, start, end)
    requires IsPeak(most, points, SliceStart(start, end, i), SliceStart(start, end, i + 1))
    ensures most <= peak
  {
    SliceBounds(start, end, i);
    var from := SliceStart(start, end, i);
    HeldWithin(points, start, end, from);
    if most != HeldAt(points, from) {
      var k :| Within(points, k, from, SliceStart(start, end, i + 1)) && points[k].value == most;
      assert Within(points, k, start, end);
    }
  }

  /** A tip can show the point: it is the last of its moment, or no slice starts with it. */
  ghost predicate Tipped(points: seq<Point>, k: int, start: real, end: real)
    requires 0 <= k < |points|
  {
    Settled(points, k) || forall i :: 0 <= i < SLICES ==> points[k].at != SliceStart(start, end, i)
  }

  /** The highest tip is the peak of the whole period, exactly unless only points
      have it that open a slice and are hidden there by a lower one of their moment. */
  lemma TipsShowPeak(tips: seq<Tip>, points: seq<Point>, readings: seq<Point>, start: real, end: real, peak: real)
    requires Timed(points) && start < end && |tips| == SLICES && IsPeak(peak, points, start, end) && peak > 0.0
    requires forall i :: 0 <= i < SLICES ==> TipOf(tips[i], points, readings, start, end, i)
    ensures (exists i :: 0 <= i < SLICES && tips[i].use == Some(peak))
            <==> (|| HeldAt(points, start) == peak
                  || exists k :: Within(points, k, start, end) && points[k].value == peak
                      && Tipped(points, k, start, end))
  {
    if i :| 0 <= i < SLICES && tips[i].use == Some(peak) {
      PeakOfTip(tips[i], points, readings, start, end, i, peak);
    }
    if HeldAt(points, start) == peak {
      HeldHasTip(tips, points, readings, start, end, peak, start);
    } else if k :| Within(points, k, start, end) && points[k].value == peak && Tipped(points, k, start, end) {
      if Settled(points, k) {
        SettledIsHeld(points, k);
        HeldHasTip(tips, points, readings, start, end, peak, points[k].at);
      } else {
        var i := SlicesTile(start, end, points[k].at);
        var most := TipPeak(tips[i], points, readings, start, end, i);
        SlicePeakBelow(most, peak, points, start, end, i);
        assert Within(points, k, SliceStart(start, end, i), SliceStart(start, end, i + 1));
      }
    }
  }

  lemma HeldHasTip(tips: seq<Tip>, points: seq<Point>, readings: seq<Point>, start: real, end: real, peak: real,
      t: real)
    requires Timed(points) && start <= t < end && |tips| == SLICES && IsPeak(peak, points, start, end) && peak > 0.0
    requires forall i :: 0 <= i < SLICES ==> TipOf(tips[i], points, readings, start, end, i)
    requires HeldAt(points, t) == peak
    ensures exists i :: 0 <= i < SLICES && tips[i].use == Some(peak)
  {
    hide IsPeak, HeldAt, Timed, TipOf;
    TipsCoverPeriod(tips, points, readings, start, end, peak);
    var i :| 0 <= i < SLICES && peak <= Shown(tips[i].use);
    assert tips[i].use == Some(peak);
  }

  /** What a tip shows is held where its slice starts or a point inside of it. */
  lemma PeakOfTip(tip: Tip, points: seq<Point>, readings: seq<Point>, start: real, end: real, i: int, peak: real)
    requires Timed(points) && start < end && 0 <= i < SLICES && TipOf(tip, points, readings, start, end, i)
    requires tip.use == Some(peak)
    ensures || HeldAt(points, start) == peak
            || exists k :: Within(points, k, start, end) && points[k].value == peak && Tipped(points, k, start, end)
  {
    var most := TipPeak(tip, points, readings, start, end, i);
    SliceBounds(start, end, i);
    var from, to := SliceStart(start, end, i), SliceStart(start, end, i + 1);
    if most == HeldAt(points, from) {
      HeldWithin(points, start, end, from);
    } else {
      var k :| Within(points, k, from, to) && points[k].value == most;
      InsideSlice(points[k].at, start, end, i);
      assert Within(points, k, start, end) && Tipped(points, k, start, end);
    }
  }

  lemma InsideSlice(t: real, start: real, end: real, i: int)
    requires start < end && 0 <= i < SLICES && SliceStart(start, end, i) < t < SliceStart(start, end, i + 1)
    ensures forall j :: 0 <= j < SLICES ==> t != SliceStart(start, end, j)
  {
    hide SliceStart;
    forall j | 0 <= j < SLICES ensures t != SliceStart(start, end, j) {
      if j <= i {
        SliceOrder(start, end, j, i);
      } else {
        SliceOrder(start, end, i + 1, j);
      }
    }
  }
}
