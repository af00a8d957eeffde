/** Sorting by a whole-number key. Go's unstable sorts may return any sorting;
    its stable ones return the one Sort computes. */
module Sorting {

  predicate SortedBy<T>(xs: seq<T>, key: T -> int) {
    forall i, j :: 0 <= i < j < |xs| ==> key(xs[i]) <= key(xs[j])
  }

  predicate IsSorting<T(==)>(ys: seq<T>, xs: seq<T>, key: T -> int) {
    SortedBy(ys, key) && multiset(ys) == multiset(xs)
  }

  /** Puts x after the elements it is not smaller than. */
  function Insert<T>(x: T, xs: seq<T>, key: T -> int): seq<T> {
    if xs == [] then [x]
    else if key(x) < key(xs[0]) then [x] + xs
    else [xs[0]] + Insert(x, xs[1..], key)
  }

  lemma {:induction false} InsertAdds<T>(x: T, xs: seq<T>, key: T -> int)
    ensures multiset(Insert(x, xs, key)) == multiset(xs) + multiset{x}
  {
    if xs != [] {
      assert xs == [xs[0]] + xs[1..];
      InsertAdds(x, xs[1..], key);
    }
  }

  lemma SortedCons<T>(x: T, xs: seq<T>, key: T -> int)
    requires SortedBy(xs, key) && forall y :: y in xs ==> key(x) <= key(y)
    ensures SortedBy([x] + xs, key)
  {
    var all := [x] + xs;
    forall i, j | 0 <= i < j < |all| ensures key(all[i]) <= key(all[j]) {
      assert all[j] == xs[j - 1];
      if i > 0 {
        assert all[i] == xs[i - 1];
      }
    }
  }

  lemma {:induction false} InsertSorts<T>(x: T, xs: seq<T>, key: T -> int)
    requires SortedBy(xs, key)
    ensures SortedBy(Insert(x, xs, key), key)
  {
    if xs != [] && key(x) >= key(xs[0]) {
      var rest := Insert(x, xs[1..], key);
      InsertSorts(x, xs[1..], key);
      InsertAdds(x, xs[1..], key);
      forall y | y in rest ensures key(xs[0]) <= key(y) {
        assert y in multiset(rest);
        if y != x {
          assert y in xs[1..];
        }
      }
      SortedCons(xs[0], rest, key);
    } else if xs != [] {
      SortedCons(x, xs, key);
    }
  }

  function Sort<T>(xs: seq<T>, key: T -> int): seq<T> {
    if xs == [] then [] else Insert(xs[|xs| - 1], Sort(xs[..|xs| - 1], key), key)
  }

  lemma {:induction false} SortSorts<T>(xs: seq<T>, key: T -> int)
    ensures IsSorting(Sort(xs, key), xs, key)
  {
    if xs != [] {
      var n := |xs| - 1;
      var rest := Sort(xs[..n], key);
      SortSorts(xs[..n], key);
      assert xs == xs[..n] + [xs[n]];
      hide Sort, Insert;
      InsertSorts(xs[n], rest, key);
      InsertAdds(xs[n], rest, key);
    }
  }

  /** Every sequence has a sorting. */
  lemma SortingExists<T>(xs: seq<T>, key: T -> int)
    ensures exists ys :: IsSorting(ys, xs, key)
  {
    SortSorts(xs, key);
  }

  /** The elements with one key, in order. */
  function WithKey<T>(xs: seq<T>, key: T -> int, k: int): seq<T> {
    if xs == [] then []
    else (if key(xs[0]) == k then [xs[0]] else []) + WithKey(xs[1..], key, k)
  }

  lemma {:induction false} WithKeyConcat<T>(xs: seq<T>, ys: seq<T>, key: T -> int, k: int)
    ensures WithKey(xs + ys, key, k) == WithKey(xs, key, k) + WithKey(ys, key, k)
  {
    if xs == [] {
      assert xs + ys == ys;
    } else {
      var all := xs + ys;
      assert all[0] == xs[0] && all[1..] == xs[1..] + ys;
      WithKeyConcat(xs[1..], ys, key, k);
      WithKeyCons(all, key, k);
      WithKeyCons(xs, key, k);
      hide WithKey;
      Regroup(if key(xs[0]) == k then [xs[0]] else [], WithKey(xs[1..], key, k), WithKey(ys, key, k));
    }
  }

  lemma WithKeyCons<T>(xs: seq<T>, key: T -> int, k: int)
    requires xs != []
    ensures WithKey(xs, key, k) == (if key(xs[0]) == k then [xs[0]] else []) + WithKey(xs[1..], key, k)
  {
  }

  lemma {:induction false} NoneWithKey<T>(xs: seq<T>, key: T -> int, k: int)
    requires forall x :: x in xs ==> key(x) != k
    ensures WithKey(xs, key, k) == []
  {
    if xs != [] {
      NoneWithKey(xs[1..], key, k);
    }
  }

  lemma {:induction false} InsertIsStable<T>(x: T, xs: seq<T>, key: T -> int, k: int)
    requires SortedBy(xs, key)
    ensures WithKey(Insert(x, xs, key), key, k) == WithKey(xs, key, k) + WithKey([x], key, k)
  {
    if xs != [] {
      if key(x) < key(xs[0]) {
        InsertFirst(x, xs, key, k);
      } else {
        var rest := Insert(x, xs[1..], key);
        var all := [xs[0]] + rest;
        assert Insert(x, xs, key) == all;
        InsertIsStable(x, xs[1..], key, k);
        assert all[0] == xs[0] && all[1..] == rest;
        WithKeyCons(all, key, k);
        WithKeyCons(xs, key, k);
        hide WithKey, Insert, SortedBy;
        Regroup(if key(xs[0]) == k then [xs[0]] else [], WithKey(xs[1..], key, k), WithKey([x], key, k));
      }
    }
  }

  lemma InsertFirst<T>(x: T, xs: seq<T>, key: T -> int, k: int)
    requires xs != [] && SortedBy(xs, key) && key(x) < key(xs[0])
    ensures WithKey([x] + xs, key, k) == WithKey(xs, key, k) + WithKey([x], key, k)
  {
    WithKeyConcat([x], xs, key, k);
    if key(x) == k {
      NoneWithKey(xs, key, k);
    } else {
      NoneWithKey([x], key, k);
    }
    hide WithKey;
  }

  /** Sort keeps elements with equal keys in their order. */
  lemma {:induction false} SortIsStable<T>(xs: seq<T>, key: T -> int, k: int)
    ensures WithKey(Sort(xs, key), key, k) == WithKey(xs, key, k)
  {
    if xs != [] {
      var n := |xs| - 1;
      var rest, x := xs[..n], xs[n];
      SortSorts(rest, key);
      assert Sort(xs, key) == Insert(x, Sort(rest, key), key);
      hide WithKey, Sort, Insert, SortedBy;
      assert xs == rest + [x];
      SortIsStable(rest, key, k);
      InsertIsStable(x, Sort(rest, key), key, k);
      WithKeyConcat(rest, [x], key, k);
    }
  }

  lemma SameMembers<T>(a: seq<T>, b: seq<T>)
    requires multiset(a) == multiset(b)
    ensures forall x :: x in a <==> x in b
  {
    forall x ensures x in a <==> x in b {
      assert x in a <==> x in multiset(a);
      assert x in b <==> x in multiset(b);
    }
  }

  /** Where a rearrangement has a sequence's last element, and what is left of both without it. */
  lemma Extract<T>(a: seq<T>, b: seq<T>) returns (i: nat)
    requires a != [] && multiset(a) == multiset(b)
    ensures i < |b| && b[i] == a[|a| - 1] && b == b[..i] + [b[i]] + b[i + 1..]
    ensures multiset(a[..|a| - 1]) == multiset(b[..i] + b[i + 1..])
  {
    var x, rest := a[|a| - 1], a[..|a| - 1];
    assert a == rest + [x];
    assert x in multiset(b);
    i :| 0 <= i < |b| && b[i] == x;
    WithoutIndex(b, i);
    Cancel(multiset(rest), multiset(b[..i] + b[i + 1..]), x);
  }

  lemma WithoutIndex<T>(b: seq<T>, i: nat)
    requires i < |b|
    ensures b == b[..i] + [b[i]] + b[i + 1..]
    ensures multiset(b) == multiset(b[..i] + b[i + 1..]) + multiset{b[i]}
  {
    assert b == b[..i] + [b[i]] + b[i + 1..];
  }

  lemma Cancel<T>(m: multiset<T>, n: multiset<T>, x: T)
    requires m + multiset{x} == n + multiset{x}
    ensures m == n
  {
    assert m == m + multiset{x} - multiset{x};
    assert n == n + multiset{x} - multiset{x};
  }

  /** What is collected from elements in turn is collected in whatever order they come. */
  lemma {:induction false} CollectionPermutes<S(!new), T>(f: seq<S> -> seq<T>, a: seq<S>, b: seq<S>)
    requires multiset(a) == multiset(b) && forall x, y :: f(x + y) == f(x) + f(y)
    ensures multiset(f(a)) == multiset(f(b))
  {
    assert |multiset(a)| == |a| && |multiset(b)| == |b|;
    if a != [] {
      var i := Extract(a, b);
      var rest, x := a[..|a| - 1], a[|a| - 1];
      assert a == rest + [x];
      CollectionPermutes(f, rest, b[..i] + b[i + 1..]);
      assert f(rest + [x]) == f(rest) + f([x]);
      assert f(b[..i] + [x] + b[i + 1..]) == f(b[..i]) + f([x]) + f(b[i + 1..]);
      assert f(b[..i] + b[i + 1..]) == f(b[..i]) + f(b[i + 1..]);
    }
  }

  /** Equal keys mean equal elements. */
  ghost predicate KeysTell<T>(xs: seq<T>, key: T -> int) {
    forall x, y :: x in xs && y in xs && key(x) == key(y) ==> x == y
  }

  lemma KeysTellPermuted<T>(a: seq<T>, b: seq<T>, key: T -> int)
    requires KeysTell(a, key) && multiset(a) == multiset(b)
    ensures KeysTell(b, key)
  {
    SameMembers(a, b);
  }

  lemma SameLast<T>(a: seq<T>, b: seq<T>, key: T -> int)
    requires SortedBy(a, key) && SortedBy(b, key) && multiset(a) == multiset(b) && KeysTell(a, key) && a != []
        && b != []
    ensures a[|a| - 1] == b[|b| - 1]
  {
    SameMembers(a, b);
    var x, y := a[|a| - 1], b[|b| - 1];
    assert y in b && x in a;
    assert y in a && x in b;
    var i :| 0 <= i < |a| && a[i] == y;
    var j :| 0 <= j < |b| && b[j] == x;
    assert i < |a| - 1 ==> key(a[i]) <= key(x);
    assert j < |b| - 1 ==> key(b[j]) <= key(y);
  }

  /** Then there is only one sorting. */
  lemma {:induction false} OneSorting<T>(a: seq<T>, b: seq<T>, key: T -> int)
    requires SortedBy(a, key) && SortedBy(b, key) && multiset(a) == multiset(b) && KeysTell(a, key)
    ensures a == b
  {
    assert |multiset(a)| == |a| && |multiset(b)| == |b|;
    if a != [] {
      var n := |a| - 1;
      SameLast(a, b, key);
      AllButLast(a, key);
      AllButLast(b, key);
      hide SortedBy, KeysTell;
      Cancel(multiset(a[..n]), multiset(b[..n]), a[n]);
      OneSorting(a[..n], b[..n], key);
    }
  }

  lemma AllButLast<T>(a: seq<T>, key: T -> int)
    requires a != [] && SortedBy(a, key)
    ensures var n := |a| - 1;
            && a == a[..n] + [a[n]] && SortedBy(a[..n], key) && multiset(a) == multiset(a[..n]) + multiset{a[n]}
            && (KeysTell(a, key) ==> KeysTell(a[..n], key))
  {
    assert a == a[..|a| - 1] + [a[|a| - 1]];
  }

  /** A set in some order. */
  ghost function Enumerate<T>(s: set<T>): (r: seq<T>)
    ensures multiset(r) == multiset(s)
  {
    if s == {} then []
    else
      var x :| x in s;
      assert s == (s - {x}) + {x};
      Enumerate(s - {x}) + [x]
  }

  /** ys lists the elements of a set once each, smallest key first. */
  predicate Lists<T(==)>(ys: seq<T>, s: set<T>, key: T -> int) {
    SortedBy(ys, key) && multiset(ys) == multiset(s)
  }

  lemma ListsMembers<T>(ys: seq<T>, s: set<T>, key: T -> int)
    requires Lists(ys, s, key)
    ensures forall y :: y in ys <==> y in s
    ensures |ys| == |s|
    ensures forall i, j :: 0 <= i < j < |ys| ==> ys[i] != ys[j]
  {
    forall y ensures y in ys <==> y in s {
      assert y in multiset(ys) <==> y in multiset(s);
    }
    assert |multiset(ys)| == |ys| && |multiset(s)| == |s|;
    forall i, j | 0 <= i < j < |ys| ensures ys[i] != ys[j] {
      assert ys == ys[..j] + ys[j..] && ys[j] in ys[j..];
      assert multiset(ys[..j])[ys[j]] + multiset(ys[j..])[ys[j]] == multiset(s)[ys[j]] <= 1;
      assert multiset(ys[..j])[ys[j]] == 0 && ys[j] !in ys[..j];
      assert ys[i] in ys[..j];
    }
  }

  lemma ListingExists<T>(s: set<T>, key: T -> int)
    ensures exists ys :: Lists(ys, s, key)
  {
    SortSorts(Enumerate(s), key);
    assert Lists(Sort(Enumerate(s), key), s, key);
  }

  // ------------------------------------------------------------------- groups

  function Flatten<T>(groups: seq<seq<T>>): seq<T> {
    if groups == [] then [] else groups[0] + Flatten(groups[1..])
  }

  lemma Regroup<T>(x: seq<T>, y: seq<T>, z: seq<T>)
    ensures x + (y + z) == x + y + z
  {
  }

  lemma {:induction false} FlattenConcat<T>(a: seq<seq<T>>, b: seq<seq<T>>)
    ensures Flatten(a + b) == Flatten(a) + Flatten(b)
  {
    if a == [] {
      assert a + b == b;
    } else {
      var all := a + b;
      assert all[0] == a[0] && all[1..] == a[1..] + b;
      FlattenConcat(a[1..], b);
      Regroup(a[0], Flatten(a[1..]), Flatten(b));
    }
  }

  lemma FlattenOne<T>(group: seq<T>)
    ensures Flatten([group]) == group
  {
    assert Flatten<T>([]) == [];
  }

  /** The groups before, at and after i. */
  lemma FlattenAt<T>(groups: seq<seq<T>>, i: nat)
    requires i < |groups|
    ensures Flatten(groups) == Flatten(groups[..i]) + groups[i] + Flatten(groups[i + 1..])
  {
    FlattenConcat(groups[..i], groups[i..]);
    assert groups == groups[..i] + groups[i..] && groups[i..][1..] == groups[i + 1..];
  }

  /** One group changed. */
  lemma FlattenUpdate<T>(groups: seq<seq<T>>, i: nat, group: seq<T>)
    requires i < |groups|
    ensures Flatten(groups[i := group]) == Flatten(groups[..i]) + group + Flatten(groups[i + 1..])
  {
    var after := groups[i := group];
    FlattenAt(after, i);
    assert after[..i] == groups[..i] && after[i + 1..] == groups[i + 1..];
  }

  lemma FlattenAppendTo<T>(groups: seq<seq<T>>, i: nat, x: T)
    requires i < |groups|
    ensures multiset(Flatten(groups[i := groups[i] + [x]])) == multiset(Flatten(groups)) + multiset{x}
  {
    FlattenAt(groups, i);
    FlattenUpdate(groups, i, groups[i] + [x]);
  }
}
