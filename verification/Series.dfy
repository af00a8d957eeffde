/** A limit's use over time as a step function, and the loops of
    internal/quota/capacity.go and internal/server/admin/capacitychart.go that
    cut, thin and probe it. */
module Series {
  import opened Records

  /** The use of a limit, in percent, from at until the next point. */
  datatype SeriesPoint = SeriesPoint(at: Time, percent: real)

  /** Use as a percentage of a limit. */
  function Percent(used: real, capacity: real): real
    requires capacity > 0.0
  {
    used / capacity * 100.0
  }

  lemma PercentMeans(used: real, capacity: real)
    requires capacity > 0.0
    ensures Percent(used, capacity) * capacity == used * 100.0
  {
  }

  lemma PercentOver(used: real, capacity: real)
    requires capacity > 0.0
    ensures Percent(used, capacity) > 100.0 <==> used > capacity
    ensures used >= 0.0 ==> Percent(used, capacity) >= 0.0
  {
    var q := used / capacity;
    assert q * capacity == used;
    Scaled(q - 1.0, capacity);
    Scaled(q, capacity);
    assert (q - 1.0) * capacity == used - capacity;
  }

  lemma Scaled(x: real, y: real)
    requires y > 0.0
    ensures x > 0.0 <==> x * y > 0.0
    ensures x < 0.0 <==> x * y < 0.0
  {
  }

  lemma PercentRises(a: real, b: real, capacity: real)
    requires a < b && capacity > 0.0
    ensures Percent(a, capacity) < Percent(b, capacity)
  {
    var p, q := a / capacity, b / capacity;
    assert p * capacity == a && q * capacity == b;
    Scaled(q - p, capacity);
    assert (q - p) * capacity == b - a;
  }

  lemma PercentOfNone(capacity: real)
    requires capacity > 0.0
    ensures Percent(0.0, capacity) == 0.0
  {
  }

  ghost predicate Chronological(points: seq<SeriesPoint>) {
    forall i, j :: 0 <= i < j < |points| ==> points[i].at <= points[j].at
  }

  lemma ChronologicalSnoc(points: seq<SeriesPoint>, p: SeriesPoint)
    ensures Chronological(points + [p]) <==> Chronological(points) && (points == [] || points[|points| - 1].at <= p.at)
  {
    var all := points + [p];
    if Chronological(all) {
      forall i, j | 0 <= i < j < |points| ensures points[i].at <= points[j].at {
        assert all[i].at <= all[j].at;
      }
      if points != [] {
        assert all[|points| - 1].at <= all[|points|].at;
      }
    }
    if Chronological(points) && (points == [] || points[|points| - 1].at <= p.at) {
      forall i, j | 0 <= i < j < |all| ensures all[i].at <= all[j].at {
        if j == |points| && i < |points| - 1 {
          assert points[i].at <= points[|points| - 1].at;
        }
      }
    }
  }

  lemma ChronologicalPrefix(points: seq<SeriesPoint>, n: nat)
    requires Chronological(points) && n <= |points|
    ensures Chronological(points[..n])
  {
  }

  /** The step function: the last point at or before t, or nothing used. */
  function UseAt(points: seq<SeriesPoint>, t: Time): real {
    if points == [] then 0.0
    else if points[|points| - 1].at <= t then points[|points| - 1].percent
    else UseAt(points[..|points| - 1], t)
  }

  lemma UseAtOneMore(points: seq<SeriesPoint>, p: SeriesPoint, t: Time)
    ensures UseAt(points + [p], t) == if p.at <= t then p.percent else UseAt(points, t)
  {
    assert (points + [p])[..|points|] == points;
  }

  /** Point i is the last at or before t. */
  ghost predicate LastBy(points: seq<SeriesPoint>, t: Time, i: nat) {
    i < |points| && points[i].at <= t && forall j :: i < j < |points| ==> t < points[j].at
  }

  lemma {:induction false} UseAtIs(points: seq<SeriesPoint>, t: Time)
    ensures if forall p :: p in points ==> t < p.at then UseAt(points, t) == 0.0
            else exists i: nat :: LastBy(points, t, i) && UseAt(points, t) == points[i].percent
  {
    if points != [] {
      var n := |points| - 1;
      var last := points[n];
      assert points == points[..n] + [last];
      if last.at <= t {
        assert LastBy(points, t, n);
      } else {
        UseAtIs(points[..n], t);
        if exists p :: p in points[..n] && p.at <= t {
          var i: nat :| LastBy(points[..n], t, i) && UseAt(points[..n], t) == points[..n][i].percent;
          assert LastBy(points, t, i);
        }
      }
    }
  }

  lemma {:induction false} UseAtOfLater(points: seq<SeriesPoint>, t: Time)
    requires forall p :: p in points ==> t < p.at
    ensures UseAt(points, t) == 0.0
  {
    if points != [] {
      UseAtOfLater(points[..|points| - 1], t);
    }
  }

  lemma {:induction false} UseAtConcat(a: seq<SeriesPoint>, b: seq<SeriesPoint>, t: Time)
    requires Chronological(b)
    ensures UseAt(a + b, t) == if b != [] && b[0].at <= t then UseAt(b, t) else UseAt(a, t)
  {
    if b == [] {
      assert a + b == a;
    } else {
      var n := |b| - 1;
      ChronologicalPrefix(b, n);
      assert (a + b)[..|a| + n] == a + b[..n];
      assert b[0].at <= b[n].at;
      UseAtConcat(a, b[..n], t);
    }
  }

  lemma {:induction false} ChronologicalConcat(a: seq<SeriesPoint>, b: seq<SeriesPoint>)
    requires Chronological(a) && Chronological(b) && (a == [] || b == [] || a[|a| - 1].at <= b[0].at)
    ensures Chronological(a + b)
  {
    if b == [] {
      assert a + b == a;
    } else {
      var n := |b| - 1;
      ChronologicalPrefix(b, n);
      ChronologicalConcat(a, b[..n]);
      assert a + b == (a + b[..n]) + [b[n]];
      if n > 0 {
        assert b[n - 1].at <= b[n].at;
      }
      ChronologicalSnoc(a + b[..n], b[n]);
    }
  }

  // -------------------------------------------------------------------- falls

  /** How often, among the first n points, the use does not rise from one to the next. */
  function Falls(points: seq<SeriesPoint>, n: nat): nat
    requires n <= |points|
  {
    if n <= 1 then 0
    else
      Falls(points, n - 1) + if points[n - 1].percent <= points[n - 2].percent then 1 else 0
  }

  lemma {:induction false} FallsOfPrefix(points: seq<SeriesPoint>, more: seq<SeriesPoint>, n: nat)
    requires n <= |points|
    ensures Falls(points + more, n) == Falls(points, n)
  {
    if n > 1 {
      FallsOfPrefix(points, more, n - 1);
    }
  }

  lemma FallsOneMore(points: seq<SeriesPoint>, p: SeriesPoint)
    ensures Falls(points + [p], |points| + 1)
            == Falls(points, |points|) + if points != [] && p.percent <= points[|points| - 1].percent then 1 else 0
  {
    FallsOfPrefix(points, [p], |points|);
  }

  lemma {:induction false} FallsLater(points: seq<SeriesPoint>, i: nat, j: nat)
    requires i <= j <= |points|
    ensures Falls(points, i) <= Falls(points, j)
  {
    if i < j {
      FallsLater(points, i, j - 1);
    }
  }

  /** From a point to a later one that is no higher the use falls somewhere. */
  lemma {:induction false} FallsBetween(points: seq<SeriesPoint>, i: nat, j: nat)
    requires i < j < |points| && points[j].percent <= points[i].percent
    ensures Falls(points, i + 1) < Falls(points, j + 1)
  {
    if points[j].percent <= points[j - 1].percent {
      FallsLater(points, i + 1, j);
    } else if i < j - 1 {
      FallsBetween(points, i, j - 1);
    }
  }

  /** One series after another falls where either does, and where they meet. */
  lemma {:induction false} FallsConcat(a: seq<SeriesPoint>, b: seq<SeriesPoint>)
    ensures Falls(a + b, |a + b|) == Falls(a, |a|) + Falls(b, |b|)
                                     + if a != [] && b != [] && b[0].percent <= a[|a| - 1].percent then 1 else 0
  {
    if b == [] {
      assert a + b == a;
    } else {
      var n := |b| - 1;
      assert a + b == (a + b[..n]) + [b[n]] && b == b[..n] + [b[n]];
      FallsConcat(a, b[..n]);
      FallsOneMore(a + b[..n], b[n]);
      FallsOneMore(b[..n], b[n]);
      assert n == 0 ==> a + b[..n] == a;
    }
  }

  // --------------------------------------------------------------------- clip

  /** What the clip loop has after a prefix: either nothing but the last point
      before from, or the prefix's steps from from on. */
  ghost predicate Clipped(prefix: seq<SeriesPoint>, before: Option<SeriesPoint>, out: seq<SeriesPoint>, from: Time,
                          to: Time) {
    && Chronological(out) && (forall p :: p in out ==> from <= p.at < to)
    && (before.Some? ==> out == [] && before.value.at < from
                         && forall t :: from <= t < to ==> UseAt(prefix, t) == before.value.percent)
    && (out != [] ==> prefix != [] && from <= out[|out| - 1].at <= prefix[|prefix| - 1].at)
    && (prefix != [] && prefix[|prefix| - 1].at < from ==> before.Some?)
    && (prefix == [] ==> before.None?)
    && (before.None? ==> forall t :: from <= t < to ==> UseAt(prefix, t) == UseAt(out, t))
  }

  lemma ClippedBefore(prefix: seq<SeriesPoint>, p: SeriesPoint, before: Option<SeriesPoint>, out: seq<SeriesPoint>,
                      from: Time, to: Time)
    requires Clipped(prefix, before, out, from, to) && Chronological(prefix + [p]) && p.at < from
    ensures Clipped(prefix + [p], Some(p), out, from, to)
  {
    ChronologicalSnoc(prefix, p);
    hide Chronological;
    forall t | from <= t < to ensures UseAt(prefix + [p], t) == p.percent {
      UseAtOneMore(prefix, p, t);
    }
  }

  lemma ClippedAfter(prefix: seq<SeriesPoint>, p: SeriesPoint, before: Option<SeriesPoint>, out: seq<SeriesPoint>,
                     from: Time, to: Time)
    requires Clipped(prefix, before, out, from, to) && Chronological(prefix + [p]) && from <= p.at && to <= p.at
    ensures Clipped(prefix + [p], before, out, from, to)
  {
    ChronologicalSnoc(prefix, p);
    hide Chronological;
    forall t | from <= t < to ensures UseAt(prefix + [p], t) == UseAt(prefix, t) {
      UseAtOneMore(prefix, p, t);
    }
  }

  lemma ClippedInside(prefix: seq<SeriesPoint>, p: SeriesPoint, before: Option<SeriesPoint>, out: seq<SeriesPoint>,
                      from: Time, to: Time)
    requires Clipped(prefix, before, out, from, to) && Chronological(prefix + [p]) && from <= p.at < to
    ensures var start := if before.Some? && p.at > from then [SeriesPoint(from, before.value.percent)] else [];
            Clipped(prefix + [p], None, out + start + [p], from, to)
  {
    var start := if before.Some? && p.at > from then [SeriesPoint(from, before.value.percent)] else [];
    ChronologicalSnoc(prefix, p);
    if start != [] {
      ChronologicalSnoc(out, start[0]);
    } else {
      assert out + start == out;
    }
    ChronologicalSnoc(out + start, p);
    hide Chronological, UseAt;
    forall t | from <= t < to ensures UseAt(prefix + [p], t) == UseAt(out + start + [p], t) {
      ClippedUse(prefix, p, before, out, from, to, t);
    }
  }

  lemma ClippedUse(prefix: seq<SeriesPoint>, p: SeriesPoint, before: Option<SeriesPoint>, out: seq<SeriesPoint>,
                   from: Time, to: Time, t: Time)
    requires Clipped(prefix, before, out, from, to) && from <= p.at && from <= t < to
    ensures var start := if before.Some? && p.at > from then [SeriesPoint(from, before.value.percent)] else [];
            UseAt(prefix + [p], t) == UseAt(out + start + [p], t)
  {
    hide Chronological, UseAt;
    var start := if before.Some? && p.at > from then [SeriesPoint(from, before.value.percent)] else [];
    UseAtOneMore(prefix, p, t);
    UseAtOneMore(out + start, p, t);
    if start != [] {
      UseAtOneMore(out, start[0], t);
    } else {
      assert out + start == out;
    }
  }

  /** What the clip loop has after a prefix falls no more often than the prefix. */
  ghost predicate FallsClipped(prefix: seq<SeriesPoint>, before: Option<SeriesPoint>, out: seq<SeriesPoint>, to: Time) {
    && Falls(out, |out|) <= Falls(prefix, |prefix|)
    && (before.Some? ==>
          out == [] && prefix != [] && (prefix[|prefix| - 1].at < to ==> before.value == prefix[|prefix| - 1]))
    && (out != [] && prefix != [] && prefix[|prefix| - 1].at < to ==>
          out[|out| - 1].percent == prefix[|prefix| - 1].percent)
  }

  lemma FallsClippedBefore(prefix: seq<SeriesPoint>, p: SeriesPoint, before: Option<SeriesPoint>, out: seq<SeriesPoint>,
                           from: Time, to: Time)
    requires Clipped(prefix, before, out, from, to) && FallsClipped(prefix, before, out, to)
    requires Chronological(prefix + [p]) && p.at < from
    ensures FallsClipped(prefix + [p], Some(p), out, to)
  {
    FallsOneMore(prefix, p);
    ChronologicalSnoc(prefix, p);
    hide Falls, Chronological;
  }

  lemma FallsClippedAfter(prefix: seq<SeriesPoint>, p: SeriesPoint, before: Option<SeriesPoint>, out: seq<SeriesPoint>,
                          to: Time)
    requires FallsClipped(prefix, before, out, to) && to <= p.at
    ensures FallsClipped(prefix + [p], before, out, to)
  {
    FallsOneMore(prefix, p);
    hide Falls;
  }

  lemma FallsClippedInside(prefix: seq<SeriesPoint>, p: SeriesPoint, before: Option<SeriesPoint>, out: seq<SeriesPoint>,
                           from: Time, to: Time)
    requires Clipped(prefix, before, out, from, to) && FallsClipped(prefix, before, out, to)
    requires Chronological(prefix + [p]) && from <= p.at < to
    ensures var start := if before.Some? && p.at > from then [SeriesPoint(from, before.value.percent)] else [];
            FallsClipped(prefix + [p], None, out + start + [p], to)
  {
    var start := if before.Some? && p.at > from then [SeriesPoint(from, before.value.percent)] else [];
    FallsOneMore(prefix, p);
    FallsOneMore(out + start, p);
    ChronologicalSnoc(prefix, p);
    if start == [] {
      assert out + start == out;
    } else {
      assert out + start == start;
      assert Falls(start, 1) == 0;
    }
    hide Falls, Chronological;
  }

  /** Cuts a series to [from, to) without changing what it shows there. */
  method ClipSeries(points: seq<SeriesPoint>, from: Time, to: Time) returns (out: seq<SeriesPoint>)
    requires Chronological(points)
    ensures Chronological(out)
    ensures from < to ==> forall p :: p in out ==> from <= p.at < to
    ensures forall t :: from <= t < to ==> UseAt(out, t) == UseAt(points, t)
    ensures Falls(out, |out|) <= Falls(points, |points|)
  {
    hide Chronological, Falls;
    out := [];
    var before: Option<SeriesPoint> := None;
    EmptyClipped(from, to);
    for i := 0 to |points|
      invariant Clipped(points[..i], before, out, from, to) && FallsClipped(points[..i], before, out, to)
    {
      hide Clipped, FallsClipped;
      var p := points[i];
      ghost var out0, before0 := out, before;
      ChronologicalPrefix(points, i + 1);
      assert points[..i + 1] == points[..i] + [p];
      if p.at < from {
        before := Some(p);
        ClippedBefore(points[..i], p, before0, out, from, to);
        FallsClippedBefore(points[..i], p, before0, out, from, to);
      } else if p.at < to {
        if before.Some? && p.at > from {
          out := out + [SeriesPoint(from, before.value.percent)];
        }
        before := None;
        out := out + [p];
        ClippedInside(points[..i], p, before0, out0, from, to);
        FallsClippedInside(points[..i], p, before0, out0, from, to);
        assert out0 + [] + [p] == out0 + [p];
      } else {
        ClippedAfter(points[..i], p, before, out, from, to);
        FallsClippedAfter(points[..i], p, before, out, to);
      }
    }
    assert points[..|points|] == points;
    if before.Some? {
      out := out + [SeriesPoint(from, before.value.percent)];
      ChronologicalSnoc([], out[0]);
      FallsOneMore([], out[0]);
      assert [] + [out[0]] == out && Falls([], 0) <= Falls(points, |points|);
      forall t | from <= t < to ensures UseAt(out, t) == UseAt(points, t) {
        UseAtOneMore([], out[0], t);
      }
    }
  }

  lemma EmptyClipped(from: Time, to: Time)
    ensures Clipped([], None, [], from, to) && Chronological([]) && FallsClipped([], None, [], to)
  {
  }
}
