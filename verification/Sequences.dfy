/** Replace-first-or-append and filtering: the two list updates that the pod-spec
    mutators are made of. */
module Sequences {

  datatype Option<+T> = None | Some(value: T)

  /** The index of the first element with key `k`, or `|s|` when there is none. */
  function FirstIndex<T, K(==)>(key: T -> K, s: seq<T>, k: K): (i: nat)
    ensures i <= |s|
    ensures forall j :: 0 <= j < i ==> key(s[j]) != k
    ensures i < |s| ==> key(s[i]) == k
  {
    if s == [] || key(s[0]) == k then 0 else 1 + FirstIndex(key, s[1..], k)
  }

  predicate HasKey<T, K(==)>(key: T -> K, s: seq<T>, k: K) {
    FirstIndex(key, s, k) < |s|
  }

  lemma FoundBy<T, K>(key: T -> K, s: seq<T>, k: K, i: nat)
    requires i < |s|
    ensures FirstIndex(key, s, k) < i + 1 <==> FirstIndex(key, s, k) < i || key(s[i]) == k
  {}

  /** Overwrite the first element that has the key of `x`, or append `x`. */
  function Upsert<T, K(==)>(key: T -> K, s: seq<T>, x: T): seq<T> {
    var i := FirstIndex(key, s, key(x));
    if i < |s| then s[i := x] else s + [x]
  }

  function UpsertAll<T, K(==)>(key: T -> K, s: seq<T>, xs: seq<T>): seq<T>
    decreases |xs|
  {
    if xs == [] then s else UpsertAll(key, Upsert(key, s, xs[0]), xs[1..])
  }

  ghost predicate DistinctKeys<T, K>(key: T -> K, xs: seq<T>) {
    forall i, j :: 0 <= i < j < |xs| ==> key(xs[i]) != key(xs[j])
  }

  ghost predicate SameKeys<T, K>(key: T -> K, xs: seq<T>, ys: seq<T>) {
    |xs| == |ys| && forall i :: 0 <= i < |xs| ==> key(xs[i]) == key(ys[i])
  }

  /** The loop behind `slices.IndexFunc`. */
  method IndexOfKey<T, K(==)>(key: T -> K, s: seq<T>, k: K) returns (index: int)
    ensures index == if HasKey(key, s, k) then FirstIndex(key, s, k) else -1
  {
    for i := 0 to |s|
      invariant forall j :: 0 <= j < i ==> key(s[j]) != k
    {
      if key(s[i]) == k {
        return i;
      }
    }
    return -1;
  }

  lemma UpsertKeys<T, K>(key: T -> K, s: seq<T>, x: T, k: K)
    ensures HasKey(key, Upsert(key, s, x), k) <==> HasKey(key, s, k) || k == key(x)
  {
    var r := Upsert(key, s, x);
    var i, j := FirstIndex(key, s, key(x)), FirstIndex(key, s, k);
    assert r[i] == x;
    if j < |s| {
      assert key(r[j]) == k;
    } else if k != key(x) {
      assert forall n :: 0 <= n < |r| ==> key(r[n]) != k;
    }
  }

  /** A second write under the same key wipes out the first one, wherever that landed. */
  lemma UpsertAbsorbs<T, K>(key: T -> K, s: seq<T>, x: T, y: T)
    requires key(x) == key(y)
    ensures Upsert(key, Upsert(key, s, x), y) == Upsert(key, s, y)
  {
    var i := FirstIndex(key, s, key(x));
    var r := Upsert(key, s, x);
    assert key(r[i]) == key(y);
    assert FirstIndex(key, r, key(y)) == i;
  }

  /** Writes under two keys commute once the first key is present; when both are absent
      they do not, since the appended elements come out in a different order. */
  lemma UpsertsCommute<T, K>(key: T -> K, s: seq<T>, x: T, y: T)
    requires key(x) != key(y)
    requires HasKey(key, s, key(x))
    ensures Upsert(key, Upsert(key, s, y), x) == Upsert(key, Upsert(key, s, x), y)
  {
    var i, j := FirstIndex(key, s, key(x)), FirstIndex(key, s, key(y));
    var sx, sy := Upsert(key, s, x), Upsert(key, s, y);
    assert key(sy[i]) == key(x);
    assert FirstIndex(key, sy, key(x)) == i;
    if j < |s| {
      assert key(sx[j]) == key(y);
      assert FirstIndex(key, sx, key(y)) == j;
    }
  }

  lemma {:induction false} UpsertPastAll<T, K>(key: T -> K, s: seq<T>, xs: seq<T>, y: T)
    requires HasKey(key, s, key(y))
    requires forall i :: 0 <= i < |xs| ==> key(xs[i]) != key(y)
    ensures Upsert(key, UpsertAll(key, s, xs), y) == UpsertAll(key, Upsert(key, s, y), xs)
    decreases |xs|
  {
    if xs != [] {
      UpsertKeys(key, s, xs[0], key(y));
      UpsertPastAll(key, Upsert(key, s, xs[0]), xs[1..], y);
      UpsertsCommute(key, s, y, xs[0]);
    }
  }

  /** A chain of writes absorbs an earlier chain over the same keys in the same order,
      positions included. */
  lemma {:induction false} UpsertAllAbsorbs<T, K>(key: T -> K, s: seq<T>, xs: seq<T>, ys: seq<T>)
    requires SameKeys(key, xs, ys) && DistinctKeys(key, xs)
    ensures UpsertAll(key, UpsertAll(key, s, xs), ys) == UpsertAll(key, s, ys)
    decreases |xs|
  {
    if xs != [] {
      var s1 := Upsert(key, s, xs[0]);
      UpsertKeys(key, s, xs[0], key(xs[0]));
      assert forall i :: 0 <= i < |xs[1..]| ==> xs[1..][i] == xs[i + 1];
      UpsertPastAll(key, s1, xs[1..], ys[0]);
      UpsertAbsorbs(key, s, xs[0], ys[0]);
      UpsertAllAbsorbs(key, Upsert(key, s, ys[0]), xs[1..], ys[1..]);
    }
  }

  /** Whether `s[i]` is the first element of `s` with its key. */
  predicate IsFirst<T, K(==)>(key: T -> K, s: seq<T>, i: nat)
    requires i < |s|
  {
    FirstIndex(key, s, key(s[i])) == i
  }

  /** What a chain of writes leaves behind: `r` extends `s`; an old entry changes only if it is
      the first of its key and that key is written; new entries are written ones; and every
      written entry is the first of its key in `r`. */
  ghost predicate UpsertShape<T, K>(key: T -> K, s: seq<T>, xs: seq<T>, r: seq<T>) {
    && |s| <= |r|
    && (forall i :: 0 <= i < |s| ==> key(r[i]) == key(s[i]))
    && (forall i :: 0 <= i < |s| && !(IsFirst(key, s, i) && HasKey(key, xs, key(s[i]))) ==> r[i] == s[i])
    && (forall i :: |s| <= i < |r| ==> r[i] in xs && !HasKey(key, s, key(r[i])))
    && (forall x :: x in xs ==> HasKey(key, r, key(x)) && r[FirstIndex(key, r, key(x))] == x)
  }

  lemma {:induction false} UpsertAllShape<T, K>(key: T -> K, s: seq<T>, xs: seq<T>)
    requires DistinctKeys(key, xs)
    ensures UpsertShape(key, s, xs, UpsertAll(key, s, xs))
    decreases |xs|
  {
    if xs == [] {
    } else {
      UpsertAllShape(key, Upsert(key, s, xs[0]), xs[1..]);
      assert xs == [xs[0]] + xs[1..];
      assert forall j :: 0 <= j < |xs[1..]| ==> key(xs[1..][j]) != key(xs[0]);
      ShapeStep(key, s, xs[0], xs[1..], UpsertAll(key, s, xs));
    }
  }

  lemma ShapeStep<T, K>(key: T -> K, s: seq<T>, x: T, rest: seq<T>, r: seq<T>)
    requires UpsertShape(key, Upsert(key, s, x), rest, r) && !HasKey(key, rest, key(x))
    ensures UpsertShape(key, s, [x] + rest, r)
  {
    var s1, xs, i := Upsert(key, s, x), [x] + rest, FirstIndex(key, s, key(x));
    KeysOfCons(key, x, rest);
    assert key(s1[i]) == key(x) && FirstIndex(key, s1, key(x)) == i && r[i] == x;
    FirstIndexStable(key, s1, r, key(x));
    forall j | 0 <= j < |s| && !(IsFirst(key, s, j) && HasKey(key, xs, key(s[j]))) ensures r[j] == s[j] {
      assert key(s1[j]) == key(s[j]) && j != i;
      FirstIndexStable(key, s, s1, key(s[j]));
    }
    forall j | |s| <= j < |r| ensures r[j] in xs && !HasKey(key, s, key(r[j])) {
      if j < |s1| {
        assert j == i;
      } else if HasKey(key, s, key(r[j])) {
        UpsertKeys(key, s, x, key(r[j]));
      }
    }
  }

  /** A property of the written elements, which holds of everything with another key, holds
      of the whole result exactly when the elements that were not overwritten have it. */
  lemma ShapeCheck<T, K>(key: T -> K, s: seq<T>, xs: seq<T>, r: seq<T>, ok: T -> bool)
    requires UpsertShape(key, s, xs, r)
    requires forall x :: x in xs ==> ok(x)
    requires forall i :: 0 <= i < |s| && !HasKey(key, xs, key(s[i])) ==> ok(s[i])
    ensures (forall i :: 0 <= i < |r| ==> ok(r[i]))
            <==> (forall i :: 0 <= i < |s| && !IsFirst(key, s, i) ==> ok(s[i]))
  {
    forall i | 0 <= i < |r| && (i >= |s| || IsFirst(key, s, i)) ensures ok(r[i]) {
      if i < |s| && HasKey(key, xs, key(s[i])) {
        var x := xs[FirstIndex(key, xs, key(s[i]))];
        FirstIndexStable(key, s, r, key(s[i]));
        assert x in xs && r[i] == x;
      }
    }
  }

  lemma KeysOfCons<T, K>(key: T -> K, x: T, rest: seq<T>)
    ensures forall k :: HasKey(key, [x] + rest, k) <==> key(x) == k || HasKey(key, rest, k)
  {
    assert ([x] + rest)[1..] == rest;
  }

  /** Extending a list without changing the keys of its elements keeps first indices. */
  lemma FirstIndexStable<T, K>(key: T -> K, s: seq<T>, r: seq<T>, k: K)
    requires |s| <= |r| && forall i :: 0 <= i < |s| ==> key(r[i]) == key(s[i])
    requires HasKey(key, s, k)
    ensures FirstIndex(key, r, k) == FirstIndex(key, s, k)
  {
    var i := FirstIndex(key, s, k);
    assert key(r[i]) == k;
  }

  /** The list without the first element that has key `k`. */
  function DropFirst<T, K(==)>(key: T -> K, s: seq<T>, k: K): seq<T> {
    var i := FirstIndex(key, s, k);
    if i < |s| then s[..i] + s[i + 1..] else s
  }

  lemma DropFirstEffect<T, K>(key: T -> K, s: seq<T>, k: K)
    requires DistinctKeys(key, s)
    ensures var r := DropFirst(key, s, k);
            && DistinctKeys(key, r) && !HasKey(key, r, k)
            && (forall x :: x in r <==> x in s && key(x) != k)
            && |r| == |s| - if HasKey(key, s, k) then 1 else 0
  {
    var i, r := FirstIndex(key, s, k), DropFirst(key, s, k);
    if i < |s| {
      forall x | x in s && key(x) != k ensures x in r {
        var j :| 0 <= j < |s| && s[j] == x;
        assert r[if j < i then j else j - 1] == x;
      }
      forall j | 0 <= j < |r| ensures r[j] in s && key(r[j]) != k {
        assert r[j] == s[if j < i then j else j + 1];
      }
    }
  }

  /** Moving or inserting an element to the front pushes others back by at most one. */
  lemma FrontPushesBack<T, K>(key: T -> K, s: seq<T>, x: T, k: K)
    requires DistinctKeys(key, s) && HasKey(key, s, k) && k != key(x)
    ensures var r := [x] + DropFirst(key, s, key(x));
            DistinctKeys(key, r) && HasKey(key, r, k) && FirstIndex(key, r, k) <= FirstIndex(key, s, k) + 1
  {
    DropFirstEffect(key, s, key(x));
    var w := DropFirst(key, s, key(x));
    var i, j := FirstIndex(key, s, k), FirstIndex(key, s, key(x));
    assert forall n :: 0 <= n < |w| ==> w[n] in w;
    var at := if j < i then i - 1 else i;
    assert w[at] == s[i] && key(([x] + w)[at + 1]) == k;
  }

  lemma TakeOneMore<T>(s: seq<T>, i: nat)
    requires i < |s|
    ensures s[..i + 1] == s[..i] + [s[i]]
  {}

  function Filter<T>(keep: T -> bool, s: seq<T>): (r: seq<T>)
    ensures |r| <= |s|
    ensures forall x :: x in r ==> x in s && keep(x)
  {
    if s == [] then []
    else (if keep(s[0]) then [s[0]] else []) + Filter(keep, s[1..])
  }

  lemma {:induction false} FilterConcat<T>(keep: T -> bool, a: seq<T>, b: seq<T>)
    ensures Filter(keep, a + b) == Filter(keep, a) + Filter(keep, b)
  {
    if a == [] {
      assert a + b == b;
    } else {
      assert (a + b)[1..] == a[1..] + b;
      FilterConcat(keep, a[1..], b);
    }
  }

  lemma {:induction false} FilterIdentity<T>(keep: T -> bool, s: seq<T>)
    ensures Filter(keep, s) == s <==> forall i :: 0 <= i < |s| ==> keep(s[i])
  {
    if s != [] {
      FilterIdentity(keep, s[1..]);
      if keep(s[0]) {
        assert s == [s[0]] + s[1..];
        assert Filter(keep, s) == s <==> Filter(keep, s[1..]) == s[1..] by {
          assert Filter(keep, s)[1..] == Filter(keep, s[1..]);
        }
        assert forall i :: 0 < i < |s| ==> s[i] == s[1..][i - 1];
      } else {
        assert |Filter(keep, s)| < |s|;
      }
    }
  }

  lemma {:induction false} FilterNone<T>(keep: T -> bool, s: seq<T>)
    requires forall x :: x in s ==> !keep(x)
    ensures Filter(keep, s) == []
  {
    if s != [] {
      FilterNone(keep, s[1..]);
    }
  }

  lemma FilterDropsMiddle<T>(keep: T -> bool, a: seq<T>, d: T, b: seq<T>)
    requires !keep(d) && (forall x :: x in a ==> keep(x)) && (forall x :: x in b ==> keep(x))
    ensures Filter(keep, a + [d] + b) == a + b
  {
    FilterConcat(keep, a + [d], b);
    FilterConcat(keep, a, [d]);
    FilterIdentity(keep, a);
    FilterIdentity(keep, b);
  }

  /** The loop of every removal: append what is kept to a fresh list. */
  method Retain<T>(keep: T -> bool, s: seq<T>) returns (r: seq<T>)
    ensures r == Filter(keep, s)
  {
    r := [];
    for i := 0 to |s|
      invariant r == Filter(keep, s[..i])
    {
      assert s[..i + 1] == s[..i] + [s[i]];
      FilterConcat(keep, s[..i], [s[i]]);
      if keep(s[i]) {
        r := r + [s[i]];
      }
    }
    assert s[..|s|] == s;
  }

  /** Filtering undoes a write of a rejected element exactly when the write did not
      overwrite something that filtering would have kept. */
  lemma FilterAbsorbsUpsert<T, K>(key: T -> K, keep: T -> bool, s: seq<T>, x: T)
    requires !keep(x)
    ensures Filter(keep, Upsert(key, s, x)) == Filter(keep, s)
            <==> (HasKey(key, s, key(x)) ==> !keep(s[FirstIndex(key, s, key(x))]))
  {
    var i := FirstIndex(key, s, key(x));
    if i == |s| {
      FilterConcat(keep, s, [x]);
    } else {
      var a, b := s[..i], s[i + 1..];
      assert s == a + ([s[i]] + b) && Upsert(key, s, x) == a + ([x] + b);
      FilterConcat(keep, a, [s[i]] + b);
      FilterConcat(keep, [s[i]], b);
      FilterConcat(keep, a, [x] + b);
      FilterConcat(keep, [x], b);
      if keep(s[i]) {
        assert |Filter(keep, s)| == |Filter(keep, Upsert(key, s, x))| + 1;
      }
    }
  }

  lemma {:induction false} FilterAbsorbsUpsertAll<T, K>(key: T -> K, keep: T -> bool, s: seq<T>, xs: seq<T>)
    requires forall i :: 0 <= i < |xs| ==> forall y :: key(y) == key(xs[i]) ==> !keep(y)
    ensures Filter(keep, UpsertAll(key, s, xs)) == Filter(keep, s)
    decreases |xs|
  {
    if xs != [] {
      FilterAbsorbsUpsert(key, keep, s, xs[0]);
      FilterAbsorbsUpsertAll(key, keep, Upsert(key, s, xs[0]), xs[1..]);
    }
  }
}
