/** Each limit's current value, from readings of several sources: Latest and
    statusLineReplaces of internal/quota/quota.go. */
module LatestQuota {
  import opened Records
  import opened Sorting

  /** A bucket together with when it was reported. */
  datatype Observed = Observed(bucket: Bucket, observedAt: Time)

  const SAME_WINDOW_SLACK: Time := MINUTE

  function ObservedTime(o: Observed): int { o.observedAt }

  /** A statusLine reading can carry a figure that is long out of date. */
  predicate FromStatusLine(s: Snapshot) {
    s.source == "claude-statusline"
  }

  function Buckets(buckets: seq<Bucket>, at: Time): (os: seq<Observed>)
    ensures |os| == |buckets| && forall i :: 0 <= i < |os| ==> os[i] == Observed(buckets[i], at)
  {
    seq(|buckets|, i requires 0 <= i < |buckets| => Observed(buckets[i], at))
  }

  /** The readings of the statusLine, or of all other sources, in order. */
  function Readings(snaps: seq<Snapshot>, statusLine: bool): seq<Observed> {
    if snaps == [] then []
    else
      var s := snaps[|snaps| - 1];
      var before := Readings(snaps[..|snaps| - 1], statusLine);
      if FromStatusLine(s) == statusLine then before + Buckets(s.buckets, s.observedAt) else before
  }

  function OfKey(os: seq<Observed>, key: string): seq<Observed> {
    if os == [] then []
    else
      var o := os[|os| - 1];
      var before := OfKey(os[..|os| - 1], key);
      if o.bucket.key == key then before + [o] else before
  }

  lemma OfKeyOneMore(os: seq<Observed>, o: Observed, key: string)
    ensures OfKey(os + [o], key) == if o.bucket.key == key then OfKey(os, key) + [o] else OfKey(os, key)
  {
    assert (os + [o])[..|os|] == os;
  }

  /** A reading replaces an older one. */
  function Newer(cur: Option<Observed>, o: Observed): Option<Observed> {
    if cur.None? || o.observedAt > cur.value.observedAt then Some(o) else cur
  }

  function Newest(os: seq<Observed>): (r: Option<Observed>)
    ensures r.Some? <==> os != []
  {
    if os == [] then None else Newer(Newest(os[..|os| - 1]), os[|os| - 1])
  }

  predicate StatusLineReplaces(next: Observed, cur: Observed) {
    && next.observedAt > cur.observedAt
    && var n, c := next.bucket, cur.bucket;
       if n.resetsAt.None? || c.resetsAt.None? || n.usedPercent.None? || c.usedPercent.None? then true
       else
         var d := n.resetsAt.value - c.resetsAt.value;
         if d > SAME_WINDOW_SLACK then true
         else if d < -SAME_WINDOW_SLACK then false
         else n.usedPercent.value > c.usedPercent.value
  }

  function Replaced(cur: Option<Observed>, o: Observed): Option<Observed> {
    if cur.None? || StatusLineReplaces(o, cur.value) then Some(o) else cur
  }

  /** A current value after statusLine readings, oldest first. */
  function Settled(cur: Option<Observed>, os: seq<Observed>): Option<Observed> {
    if os == [] then cur else Replaced(Settled(cur, os[..|os| - 1]), os[|os| - 1])
  }

  function Lookup(m: map<string, Observed>, key: string): Option<Observed> {
    if key in m then Some(m[key]) else None
  }

  /** What Latest may answer: Go's sort puts readings of one time in any order. */
  ghost predicate IsLatest(m: map<string, Observed>, snaps: seq<Snapshot>) {
    exists st :: IsSorting(st, Readings(snaps, true), ObservedTime) && SettlesOn(m, snaps, st)
  }

  ghost predicate SettlesOn(m: map<string, Observed>, snaps: seq<Snapshot>, st: seq<Observed>) {
    forall key :: Lookup(m, key) == Settled(Newest(OfKey(Readings(snaps, false), key)), OfKey(st, key))
  }

  ghost predicate HoldsNewest(m: map<string, Observed>, live: seq<Observed>) {
    forall key :: Lookup(m, key) == Newest(OfKey(live, key))
  }

  lemma NewestOneMore(m: map<string, Observed>, live: seq<Observed>, o: Observed)
    requires HoldsNewest(m, live)
    ensures var key := o.bucket.key;
            HoldsNewest(if key !in m || o.observedAt > m[key].observedAt then m[key := o] else m, live + [o])
  {
    var k := o.bucket.key;
    var m' := if k !in m || o.observedAt > m[k].observedAt then m[k := o] else m;
    forall key ensures Lookup(m', key) == Newest(OfKey(live + [o], key)) {
      OfKeyOneMore(live, o, key);
      assert Lookup(m, key) == Newest(OfKey(live, key));
      assert (OfKey(live, key) + [o])[..|OfKey(live, key)|] == OfKey(live, key);
    }
  }

  ghost predicate HoldsSettled(m: map<string, Observed>, live: seq<Observed>, done: seq<Observed>) {
    forall key :: Lookup(m, key) == Settled(Newest(OfKey(live, key)), OfKey(done, key))
  }

  lemma SettledOneMore(m: map<string, Observed>, live: seq<Observed>, done: seq<Observed>, o: Observed)
    requires HoldsSettled(m, live, done)
    ensures var key := o.bucket.key;
            HoldsSettled(if key !in m || StatusLineReplaces(o, m[key]) then m[key := o] else m, live, done + [o])
  {
    var k := o.bucket.key;
    var m' := if k !in m || StatusLineReplaces(o, m[k]) then m[k := o] else m;
    hide StatusLineReplaces, Newest;
    forall key ensures Lookup(m', key) == Settled(Newest(OfKey(live, key)), OfKey(done + [o], key)) {
      OfKeyOneMore(done, o, key);
      assert Lookup(m, key) == Settled(Newest(OfKey(live, key)), OfKey(done, key));
      assert (OfKey(done, key) + [o])[..|OfKey(done, key)|] == OfKey(done, key);
    }
  }

  method Latest(snaps: seq<Snapshot>) returns (latest: map<string, Observed>)
    ensures IsLatest(latest, snaps)
  {
    latest := map[];
    var stale: seq<Observed> := [];
    for i := 0 to |snaps|
      invariant HoldsNewest(latest, Readings(snaps[..i], false)) && stale == Readings(snaps[..i], true)
    {
      var s := snaps[i];
      ghost var live, stale0 := Readings(snaps[..i], false), stale;
      assert snaps[..i + 1][..i] == snaps[..i];
      hide HoldsNewest, Readings;
      assert live + Buckets(s.buckets, s.observedAt)[..0] == live
          && stale0 + Buckets(s.buckets, s.observedAt)[..0] == stale0;
      for j := 0 to |s.buckets|
        invariant HoldsNewest(latest, if FromStatusLine(s) then live else live + Buckets(s.buckets, s.observedAt)[..j])
        invariant stale == if FromStatusLine(s) then stale0 + Buckets(s.buckets, s.observedAt)[..j] else stale0
      {
        var o := Observed(s.buckets[j], s.observedAt);
        ghost var all := Buckets(s.buckets, s.observedAt);
        assert all[..j + 1] == all[..j] + [o];
        if FromStatusLine(s) {
          stale := stale + [o];
          continue;
        }
        NewestOneMore(latest, live + all[..j], o);
        assert live + all[..j + 1] == live + all[..j] + [o];
        if o.bucket.key !in latest || o.observedAt > latest[o.bucket.key].observedAt {
          latest := latest[o.bucket.key := o];
        }
      }
      assert Buckets(s.buckets, s.observedAt)[..|s.buckets|] == Buckets(s.buckets, s.observedAt);
    }
    assert snaps[..|snaps|] == snaps;
    latest := Settle(latest, stale, Readings(snaps, false));
  }

  /** Latest's second loop. */
  method Settle(newest: map<string, Observed>, stale: seq<Observed>, ghost live: seq<Observed>)
    returns (latest: map<string, Observed>)
    requires HoldsNewest(newest, live)
    ensures exists st :: IsSorting(st, stale, ObservedTime) && HoldsSettled(latest, live, st)
  {
    latest := newest;
    SortingExists(stale, ObservedTime);
    var st: seq<Observed> :| IsSorting(st, stale, ObservedTime);
    assert HoldsSettled(latest, live, st[..0]);
    for i := 0 to |st|
      invariant HoldsSettled(latest, live, st[..i])
    {
      var o := st[i];
      assert st[..i + 1] == st[..i] + [o];
      SettledOneMore(latest, live, st[..i], o);
      hide HoldsSettled, StatusLineReplaces;
      if o.bucket.key !in latest || StatusLineReplaces(o, latest[o.bucket.key]) {
        latest := latest[o.bucket.key := o];
      }
    }
    assert st[..|st|] == st;
  }

  // -------------------------------------------------------- what latest means

  lemma {:induction false} NewestIs(os: seq<Observed>)
    requires os != []
    ensures Newest(os).Some? && Newest(os).value in os
    ensures forall o :: o in os ==> o.observedAt <= Newest(os).value.observedAt
  {
    var n := |os| - 1;
    var rest := os[..n];
    assert os == rest + [os[n]];
    if n > 0 {
      NewestIs(rest);
    } else {
      assert rest == [];
    }
    assert Newest(os) == Newer(Newest(rest), os[n]);
    hide Newest;
  }

  lemma {:induction false} OfKeyMembers(os: seq<Observed>, key: string, o: Observed)
    ensures multiset(OfKey(os, key))[o] == if o.bucket.key == key then multiset(os)[o] else 0
  {
    if os != [] {
      var n := |os| - 1;
      OfKeyMembers(os[..n], key, o);
      assert os == os[..n] + [os[n]];
    }
  }

  lemma InOfKey(os: seq<Observed>, key: string, o: Observed)
    ensures o in OfKey(os, key) <==> o in os && o.bucket.key == key
  {
    OfKeyMembers(os, key, o);
    assert o in multiset(os) <==> o in os;
    assert o in multiset(OfKey(os, key)) <==> o in OfKey(os, key);
  }

  lemma {:induction false} SettledNoOlder(cur: Option<Observed>, os: seq<Observed>)
    ensures cur.Some? ==> Settled(cur, os).Some? && cur.value.observedAt <= Settled(cur, os).value.observedAt
    ensures Settled(cur, os) == cur || (Settled(cur, os).Some? && Settled(cur, os).value in os)
  {
    if os != [] {
      var n := |os| - 1;
      SettledNoOlder(cur, os[..n]);
      assert os == os[..n] + [os[n]];
    }
  }

  /** The current value is never older than any reading the provider itself
      reported, and it is one of the readings. */
  lemma NeverOlder(m: map<string, Observed>, snaps: seq<Snapshot>, o: Observed)
    requires IsLatest(m, snaps) && o in Readings(snaps, false)
    ensures o.bucket.key in m && o.observedAt <= m[o.bucket.key].observedAt
    ensures m[o.bucket.key] in Readings(snaps, false) || m[o.bucket.key] in Readings(snaps, true)
  {
    var key := o.bucket.key;
    var st :| IsSorting(st, Readings(snaps, true), ObservedTime) && SettlesOn(m, snaps, st);
    var live := OfKey(Readings(snaps, false), key);
    InOfKey(Readings(snaps, false), key, o);
    NewestIs(live);
    SettledNoOlder(Newest(live), OfKey(st, key));
    hide OfKey, Newest, Settled, Readings;
    assert Lookup(m, key) == Settled(Newest(live), OfKey(st, key));
    InOfKey(Readings(snaps, false), key, m[key]);
    InOfKey(st, key, m[key]);
    SameMembers(st, Readings(snaps, true));
  }

  // ------------------------------------------------------- what replaces what

  /** Both readings name their reset and their use. */
  ghost predicate Complete(o: Observed) {
    o.bucket.resetsAt.Some? && o.bucket.usedPercent.Some?
  }

  /** Of two complete readings the first is of a later window than the second:
      its reset is more than a minute later. */
  ghost predicate LaterWindow(o: Observed, cur: Observed)
    requires Complete(o) && Complete(cur)
  {
    cur.bucket.resetsAt.value + 60_000_000_000 < o.bucket.resetsAt.value
  }

  /** It shows more use of the same window: their resets are at most a minute apart. */
  ghost predicate MoreOfSame(o: Observed, cur: Observed)
    requires Complete(o) && Complete(cur)
  {
    && o.bucket.resetsAt.value <= cur.bucket.resetsAt.value + 60_000_000_000
    && cur.bucket.resetsAt.value <= o.bucket.resetsAt.value + 60_000_000_000
    && cur.bucket.usedPercent.value < o.bucket.usedPercent.value
  }

  /** A statusLine reading says something new: it is newer, and where both are
      complete it is of a later window or shows more of the same one. */
  ghost predicate SaysMore(o: Observed, cur: Observed) {
    && cur.observedAt < o.observedAt
    && (Complete(o) && Complete(cur) ==> LaterWindow(o, cur) || MoreOfSame(o, cur))
  }

  /** One reading replaces the current value exactly when it says something new. */
  ghost predicate Follows(before: Option<Observed>, o: Observed, after: Option<Observed>) {
    after == if before.None? || SaysMore(o, before.value) then Some(o) else before
  }

  /** The values a limit goes through while statusLine readings come in. */
  ghost predicate IsTrace(trace: seq<Option<Observed>>, os: seq<Observed>) {
    |trace| == |os| + 1 && forall i :: 0 <= i < |os| ==> Follows(trace[i], os[i], trace[i + 1])
  }

  lemma {:induction false} SettledTrace(cur: Option<Observed>, os: seq<Observed>) returns (trace: seq<Option<Observed>>)
    ensures IsTrace(trace, os) && trace[0] == cur && trace[|os|] == Settled(cur, os)
  {
    if os == [] {
      trace := [cur];
    } else {
      var n := |os| - 1;
      var before := SettledTrace(cur, os[..n]);
      trace := before + [Settled(cur, os)];
      assert Follows(before[n], os[n], Settled(cur, os));
      hide Follows, Settled;
      forall i | 0 <= i < |os| ensures Follows(trace[i], os[i], trace[i + 1]) {
        assert i < n ==> Follows(before[i], os[..n][i], before[i + 1]);
      }
    }
  }

  /** Of readings in time order, none of those newer than the value they end on
      says more than it. */
  lemma NothingLeftToSay(trace: seq<Option<Observed>>, os: seq<Observed>, i: nat)
    requires IsTrace(trace, os) && SortedBy(os, ObservedTime) && i < |os|
    ensures trace[|os|].Some? && !SaysMore(os[i], trace[|os|].value)
  {
    var j := i + 1;
    assert Follows(trace[i], os[i], trace[i + 1]);
    while j < |os|
      invariant i < j <= |os| && trace[j].Some? && !SaysMore(os[i], trace[j].value)
    {
      assert Follows(trace[j], os[j], trace[j + 1]);
      assert ObservedTime(os[i]) <= ObservedTime(os[j]);
      j := j + 1;
    }
  }

  /** What a limit's current value is: the newest of the readings of other
      sources, replaced by one statusLine reading after the other, in time
      order, each exactly when it says something new. In the end no statusLine
      reading says more than the current value. */
  lemma CurrentValue(m: map<string, Observed>, snaps: seq<Snapshot>, key: string)
      returns (st: seq<Observed>, trace: seq<Option<Observed>>)
    requires IsLatest(m, snaps)
    ensures IsSorting(st, OfKey(Readings(snaps, true), key), ObservedTime) && IsTrace(trace, st)
    ensures IsNewest(trace[0], OfKey(Readings(snaps, false), key)) && trace[|st|] == Lookup(m, key)
    ensures forall o :: o in st ==> key in m && !SaysMore(o, m[key])
  {
    hide SaysMore, Follows, Readings, StatusLineReplaces;
    var all :| IsSorting(all, Readings(snaps, true), ObservedTime) && SettlesOn(m, snaps, all);
    var live := OfKey(Readings(snaps, false), key);
    st := OfKey(all, key);
    OfKeySorted(all, key);
    OfKeyPermutes(all, Readings(snaps, true), key);
    trace := SettledTrace(Newest(live), st);
    assert Lookup(m, key) == Settled(Newest(live), OfKey(all, key));
    NewestReading(live);
    hide Newest, Settled, OfKey, IsTrace;
    forall o | o in st ensures key in m && !SaysMore(o, m[key]) {
      var i :| 0 <= i < |st| && st[i] == o;
      NothingLeftToSay(trace, st, i);
    }
  }

  /** The newest of some readings, the first of them where several are; none without any. */
  ghost predicate IsNewest(r: Option<Observed>, os: seq<Observed>) {
    if os == [] then r == None else exists i :: FirstNewest(os, i) && r == Some(os[i])
  }

  ghost predicate FirstNewest(os: seq<Observed>, i: int) {
    && 0 <= i < |os|
    && (forall j :: 0 <= j < i ==> os[j].observedAt < os[i].observedAt)
    && (forall j :: i <= j < |os| ==> os[j].observedAt <= os[i].observedAt)
  }

  lemma NewestReading(os: seq<Observed>)
    ensures IsNewest(Newest(os), os)
  {
    if os != [] {
      var i := NewestAt(os);
      hide Newest, FirstNewest;
    }
  }

  lemma {:induction false} NewestAt(os: seq<Observed>) returns (i: int)
    requires os != []
    ensures FirstNewest(os, i) && Newest(os) == Some(os[i])
  {
    var n := |os| - 1;
    assert Newest(os) == Newer(Newest(os[..n]), os[n]);
    if n == 0 {
      assert Newest(os[..0]) == None;
      hide Newest;
      i := 0;
    } else {
      hide Newest;
      i := NewestAt(os[..n]);
      assert forall j :: 0 <= j < n ==> os[..n][j] == os[j];
      if os[n].observedAt > os[i].observedAt {
        i := n;
      }
    }
  }

  /** The readings of a limit are those of the snapshots' buckets of its key,
      from the statusLine or from elsewhere. */
  lemma {:induction false} ReadingsAre(snaps: seq<Snapshot>, statusLine: bool, o: Observed)
    ensures o in Readings(snaps, statusLine) <==>
            exists i :: 0 <= i < |snaps| && (snaps[i].source == "claude-statusline" <==> statusLine)
                        && o.bucket in snaps[i].buckets && o.observedAt == snaps[i].observedAt
  {
    if snaps != [] {
      var n := |snaps| - 1;
      var last := snaps[n];
      ReadingsAre(snaps[..n], statusLine, o);
      assert o in Buckets(last.buckets, last.observedAt) <==>
          o.bucket in last.buckets && o.observedAt == last.observedAt by {
        if o.bucket in last.buckets && o.observedAt == last.observedAt {
          var j :| 0 <= j < |last.buckets| && last.buckets[j] == o.bucket;
          assert Buckets(last.buckets, last.observedAt)[j] == o;
        }
      }
      assert forall i :: 0 <= i < n ==> snaps[..n][i] == snaps[i];
    }
  }

  // ------------------------------------------------------------------ any order

  /** No two readings of one limit were made at one time. */
  ghost predicate DistinctTimes(os: seq<Observed>) {
    forall a, b :: a in os && b in os && a.bucket.key == b.bucket.key && a.observedAt == b.observedAt ==> a == b
  }

  lemma LastIsLatest(a: seq<Observed>, o: Observed)
    requires SortedBy(a, ObservedTime) && o in a
    ensures o.observedAt <= a[|a| - 1].observedAt
  {
    var i :| 0 <= i < |a| && a[i] == o;
    assert i < |a| - 1 ==> ObservedTime(a[i]) <= ObservedTime(a[|a| - 1]);
  }

  lemma {:induction false} OfKeySorted(os: seq<Observed>, key: string)
    requires SortedBy(os, ObservedTime)
    ensures SortedBy(OfKey(os, key), ObservedTime)
  {
    if os != [] {
      var n := |os| - 1;
      OfKeySorted(os[..n], key);
      forall o | o in OfKey(os[..n], key) ensures o.observedAt <= os[n].observedAt {
        InOfKey(os[..n], key, o);
        LastIsLatest(os, o);
      }
    }
  }

  lemma OfKeyPermutes(a: seq<Observed>, b: seq<Observed>, key: string)
    requires multiset(a) == multiset(b)
    ensures multiset(OfKey(a, key)) == multiset(OfKey(b, key))
  {
    forall o ensures multiset(OfKey(a, key))[o] == multiset(OfKey(b, key))[o] {
      OfKeyMembers(a, key, o);
      OfKeyMembers(b, key, o);
    }
  }

  lemma SameNewest(a: seq<Observed>, b: seq<Observed>)
    requires multiset(a) == multiset(b) && KeysTell(a, ObservedTime)
    ensures Newest(a) == Newest(b)
  {
    SameMembers(a, b);
    assert |multiset(a)| == |a| && |multiset(b)| == |b|;
    if a != [] {
      NewestIs(a);
      NewestIs(b);
    }
  }

  lemma KeyTimes(os: seq<Observed>, key: string)
    requires DistinctTimes(os)
    ensures KeysTell(OfKey(os, key), ObservedTime)
  {
    forall x, y | x in OfKey(os, key) && y in OfKey(os, key) && ObservedTime(x) == ObservedTime(y) ensures x == y {
      InOfKey(os, key, x);
      InOfKey(os, key, y);
    }
  }

  function Later(os: seq<Observed>, t: Time): seq<Observed> {
    if os == [] then []
    else
      var before := Later(os[..|os| - 1], t);
      if os[|os| - 1].observedAt > t then before + [os[|os| - 1]] else before
  }

  lemma {:induction false} LaterMembers(os: seq<Observed>, t: Time, o: Observed)
    ensures multiset(Later(os, t))[o] == if o.observedAt > t then multiset(os)[o] else 0
  {
    if os != [] {
      var n := |os| - 1;
      LaterMembers(os[..n], t, o);
      assert os == os[..n] + [os[n]];
    }
  }

  lemma InLater(os: seq<Observed>, t: Time, o: Observed)
    ensures o in Later(os, t) <==> o in os && o.observedAt > t
  {
    LaterMembers(os, t, o);
    assert o in multiset(os) <==> o in os;
    assert o in multiset(Later(os, t)) <==> o in Later(os, t);
  }

  lemma {:induction false} LaterSorted(os: seq<Observed>, t: Time)
    requires SortedBy(os, ObservedTime)
    ensures SortedBy(Later(os, t), ObservedTime)
  {
    if os != [] {
      var n := |os| - 1;
      LaterSorted(os[..n], t);
      forall o | o in Later(os[..n], t) ensures o.observedAt <= os[n].observedAt {
        InLater(os[..n], t, o);
        LastIsLatest(os, o);
      }
    }
  }

  /** Readings no newer than the current value never replace it. */
  lemma {:induction false} OnlyLaterSettle(cur: Observed, os: seq<Observed>)
    ensures Settled(Some(cur), os) == Settled(Some(cur), Later(os, cur.observedAt))
  {
    if os != [] {
      var n := |os| - 1;
      OnlyLaterSettle(cur, os[..n]);
      SettledNoOlder(Some(cur), os[..n]);
      var later := Later(os[..n], cur.observedAt);
      assert (later + [os[n]])[..|later|] == later;
    }
  }

  /** Two device pools agree on a limit when they have the same readings of it
      from the provider and the same statusLine readings newer than the newest
      of those: neither the order of the snapshots nor older statusLine
      readings matter. */
  ghost predicate Agree(a: seq<Snapshot>, b: seq<Snapshot>, key: string) {
    var live := OfKey(Readings(a, false), key);
    && multiset(live) == multiset(OfKey(Readings(b, false), key))
    && if live == [] then multiset(OfKey(Readings(a, true), key)) == multiset(OfKey(Readings(b, true), key))
       else
         var t := Newest(live).value.observedAt;
         multiset(Later(OfKey(Readings(a, true), key), t)) == multiset(Later(OfKey(Readings(b, true), key), t))
  }

  /** What Settled depends on. */
  lemma SettledSame(cur: Option<Observed>, os: seq<Observed>, os': seq<Observed>)
    requires SortedBy(os, ObservedTime) && SortedBy(os', ObservedTime) && KeysTell(os, ObservedTime)
    requires if cur.None? then multiset(os) == multiset(os')
             else multiset(Later(os, cur.value.observedAt)) == multiset(Later(os', cur.value.observedAt))
    ensures Settled(cur, os) == Settled(cur, os')
  {
    if cur.None? {
      OneSorting(os, os', ObservedTime);
    } else {
      var t := cur.value.observedAt;
      OnlyLaterSettle(cur.value, os);
      OnlyLaterSettle(cur.value, os');
      LaterSorted(os, t);
      LaterSorted(os', t);
      forall x, y | x in Later(os, t) && y in Later(os, t) && ObservedTime(x) == ObservedTime(y) ensures x == y {
        InLater(os, t, x);
        InLater(os, t, y);
      }
      OneSorting(Later(os, t), Later(os', t), ObservedTime);
    }
  }

  lemma LaterPermutes(a: seq<Observed>, b: seq<Observed>, t: Time)
    requires multiset(a) == multiset(b)
    ensures multiset(Later(a, t)) == multiset(Later(b, t))
  {
    forall o ensures multiset(Later(a, t))[o] == multiset(Later(b, t))[o] {
      LaterMembers(a, t, o);
      LaterMembers(b, t, o);
    }
  }

  /** What a sort of the statusLine readings leaves of one limit. */
  lemma SortedOfKey(st: seq<Observed>, stale: seq<Observed>, key: string)
    requires IsSorting(st, stale, ObservedTime)
    ensures SortedBy(OfKey(st, key), ObservedTime) && multiset(OfKey(st, key)) == multiset(OfKey(stale, key))
    ensures forall t :: multiset(Later(OfKey(st, key), t)) == multiset(Later(OfKey(stale, key), t))
  {
    OfKeySorted(st, key);
    OfKeyPermutes(st, stale, key);
    forall t ensures multiset(Later(OfKey(st, key), t)) == multiset(Later(OfKey(stale, key), t)) {
      LaterPermutes(OfKey(st, key), OfKey(stale, key), t);
    }
  }

  /** There is one answer for a limit, and it depends on no more than Agree says. */
  lemma OneAnswer(m: map<string, Observed>, m': map<string, Observed>, a: seq<Snapshot>, b: seq<Snapshot>, key: string)
    requires IsLatest(m, a) && IsLatest(m', b) && Agree(a, b, key)
    requires DistinctTimes(Readings(a, false)) && DistinctTimes(Readings(a, true))
    ensures Lookup(m, key) == Lookup(m', key)
  {
    var st :| IsSorting(st, Readings(a, true), ObservedTime) && SettlesOn(m, a, st);
    var st' :| IsSorting(st', Readings(b, true), ObservedTime) && SettlesOn(m', b, st');
    hide OfKey, Readings, Newest, Settled, Later, SortedBy, KeysTell, DistinctTimes;
    var live, live' := OfKey(Readings(a, false), key), OfKey(Readings(b, false), key);
    assert Lookup(m, key) == Settled(Newest(live), OfKey(st, key));
    assert Lookup(m', key) == Settled(Newest(live'), OfKey(st', key));
    hide SettlesOn;
    KeyTimes(Readings(a, false), key);
    KeyTimes(Readings(a, true), key);
    SameNewest(live, live');
    SortedOfKey(st, Readings(a, true), key);
    SortedOfKey(st', Readings(b, true), key);
    KeysTellPermuted(OfKey(Readings(a, true), key), OfKey(st, key), ObservedTime);
    SettledSame(Newest(live), OfKey(st, key), OfKey(st', key));
  }

  lemma {:induction false} ReadingsConcat(a: seq<Snapshot>, b: seq<Snapshot>, statusLine: bool)
    ensures Readings(a + b, statusLine) == Readings(a, statusLine) + Readings(b, statusLine)
  {
    if b == [] {
      assert a + b == a;
    } else {
      var n := |b| - 1;
      hide FromStatusLine, Buckets;
      ReadingsConcat(a, b[..n], statusLine);
      assert (a + b)[..|a + b| - 1] == a + b[..n] && (a + b)[|a + b| - 1] == b[n];
      Sorting.Regroup(Readings(a, statusLine), Readings(b[..n], statusLine), Buckets(b[n].buckets, b[n].observedAt));
    }
  }

  lemma ReadingsPermute(a: seq<Snapshot>, b: seq<Snapshot>, statusLine: bool)
    requires multiset(a) == multiset(b)
    ensures multiset(Readings(a, statusLine)) == multiset(Readings(b, statusLine))
  {
    forall x, y ensures Readings(x + y, statusLine) == Readings(x, statusLine) + Readings(y, statusLine) {
      ReadingsConcat(x, y, statusLine);
    }
    hide Readings;
    CollectionPermutes(s => Readings(s, statusLine), a, b);
  }

  /** The snapshots' order does not matter. */
  lemma AnyOrder(m: map<string, Observed>, m': map<string, Observed>, a: seq<Snapshot>, b: seq<Snapshot>)
    requires IsLatest(m, a) && IsLatest(m', b) && multiset(a) == multiset(b)
    requires DistinctTimes(Readings(a, false)) && DistinctTimes(Readings(a, true))
    ensures m == m'
  {
    hide OfKey, Readings, Newest, IsLatest, DistinctTimes, Later;
    ReadingsPermute(a, b, false);
    ReadingsPermute(a, b, true);
    forall key ensures Lookup(m, key) == Lookup(m', key) {
      OfKeyPermutes(Readings(a, false), Readings(b, false), key);
      OfKeyPermutes(Readings(a, true), Readings(b, true), key);
      var live := OfKey(Readings(a, false), key);
      if live != [] {
        LaterPermutes(OfKey(Readings(a, true), key), OfKey(Readings(b, true), key), Newest(live).value.observedAt);
      }
      assert |multiset(live)| == |live|;
      OneAnswer(m, m', a, b, key);
    }
    SameLookups(m, m');
  }

  lemma SameLookups(m: map<string, Observed>, m': map<string, Observed>)
    requires forall key :: Lookup(m, key) == Lookup(m', key)
    ensures m == m'
  {
    forall key ensures key in m <==> key in m' {
      assert Lookup(m, key) == Lookup(m', key);
    }
    forall key | key in m ensures m[key] == m'[key] {
      assert Lookup(m, key) == Lookup(m', key);
    }
  }
}
