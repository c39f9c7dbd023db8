/** Chains of "next" links over finitely many nodes: they end everywhere exactly when no node
    reaches itself. */
module Chains {
  import opened Sequences

  /** The node `n` links away from `k`, if the chain is that long. */
  function Ancestor<K>(next: K -> Option<K>, k: K, n: nat): Option<K> {
    if n == 0 then Some(k)
    else
      var a := Ancestor(next, k, n - 1);
      if a.None? then None else next(a.value)
  }

  ghost predicate Acyclic<K(!new)>(next: K -> Option<K>) {
    forall k, n: nat :: n > 0 ==> Ancestor(next, k, n) != Some(k)
  }

  /** Only nodes of the finite set `nodes` have a link. */
  ghost predicate LinksFrom<K(!new)>(next: K -> Option<K>, nodes: set<K>) {
    forall k :: next(k).Some? ==> k in nodes
  }

  ghost predicate ChainEnds<K(!new)>(next: K -> Option<K>, k: K) {
    exists n: nat :: Ancestor(next, k, n).None?
  }

  lemma {:induction false} AncestorSplits<K>(next: K -> Option<K>, k: K, i: nat, j: nat)
    requires Ancestor(next, k, i).Some?
    ensures Ancestor(next, k, i + j) == Ancestor(next, Ancestor(next, k, i).value, j)
  {
    if j > 0 {
      AncestorSplits(next, k, i, j - 1);
    }
  }

  lemma {:induction false} AncestorsBefore<K>(next: K -> Option<K>, k: K, i: nat, n: nat)
    requires i <= n && Ancestor(next, k, n).Some?
    ensures Ancestor(next, k, i).Some?
    decreases n - i
  {
    if i < n {
      AncestorsBefore(next, k, i + 1, n);
    }
  }

  ghost predicate OnPath<K>(next: K -> Option<K>, k: K, n: nat, a: K) {
    exists i: nat :: i < n && Ancestor(next, k, i) == Some(a)
  }

  /** The first `n` nodes of an acyclic chain of `n` links are distinct. */
  lemma {:induction false} DistinctPath<K(!new)>(next: K -> Option<K>, nodes: set<K>, k: K, n: nat)
      returns (path: set<K>)
    requires Acyclic(next) && LinksFrom(next, nodes) && Ancestor(next, k, n).Some?
    ensures |path| == n && path <= nodes
    ensures forall a :: a in path ==> OnPath(next, k, n, a)
  {
    path := {};
    if n > 0 {
      AncestorsBefore(next, k, n - 1, n);
      path := DistinctPath(next, nodes, k, n - 1);
      var last := Ancestor(next, k, n - 1).value;
      if last in path {
        var i: nat :| i < n - 1 && Ancestor(next, k, i) == Some(last);
        AncestorSplits(next, k, i, n - 1 - i);
        assert false;
      }
      assert OnPath(next, k, n, last);
      forall a | a in path ensures OnPath(next, k, n, a) {
        var i: nat :| i < n - 1 && Ancestor(next, k, i) == Some(a);
      }
      path := path + {last};
    }
  }

  lemma SubsetIsSmaller<K>(a: set<K>, b: set<K>)
    requires a <= b
    ensures |a| <= |b|
  {
    assert b == a + (b - a);
  }

  /** An acyclic chain has no more links than there are nodes. */
  lemma ChainsAreShort<K(!new)>(next: K -> Option<K>, nodes: set<K>, k: K, n: nat)
    requires Acyclic(next) && LinksFrom(next, nodes) && Ancestor(next, k, n).Some?
    ensures n <= |nodes|
  {
    var path := DistinctPath(next, nodes, k, n);
    SubsetIsSmaller(path, nodes);
  }

  lemma {:induction false} CycleRepeats<K>(next: K -> Option<K>, k: K, n: nat, rounds: nat)
    requires n > 0 && Ancestor(next, k, n) == Some(k)
    ensures Ancestor(next, k, rounds * n) == Some(k)
    decreases rounds
  {
    if rounds > 0 {
      CycleRepeats(next, k, n, rounds - 1);
      assert rounds * n == (rounds - 1) * n + n;
      AncestorSplits(next, k, (rounds - 1) * n, n);
    }
  }

  lemma CycleNeverEnds<K(!new)>(next: K -> Option<K>, k: K, n: nat)
    requires n > 0 && Ancestor(next, k, n) == Some(k)
    ensures !ChainEnds(next, k)
  {
    forall m: nat ensures Ancestor(next, k, m).Some? {
      CycleRepeats(next, k, n, m);
      assert m * n >= m;
      AncestorsBefore(next, k, m, m * n);
    }
  }

  lemma ChainsEndIffAcyclic<K(!new)>(next: K -> Option<K>, nodes: set<K>)
    requires LinksFrom(next, nodes)
    ensures (forall k :: ChainEnds(next, k)) <==> Acyclic(next)
  {
    if Acyclic(next) {
      forall k ensures ChainEnds(next, k) {
        if Ancestor(next, k, |nodes| + 1).Some? {
          ChainsAreShort(next, nodes, k, |nodes| + 1);
        }
      }
    } else {
      var k, n: nat :| n > 0 && Ancestor(next, k, n) == Some(k);
      CycleNeverEnds(next, k, n);
    }
  }

  /** `end` is where the chain from `k` stops. */
  ghost predicate IsEnd<K(!new)>(next: K -> Option<K>, k: K, end: K) {
    exists n: nat :: Ancestor(next, k, n) == Some(end) && next(end).None?
  }

  lemma NothingBeyondEnd<K(!new)>(next: K -> Option<K>, k: K, i: nat, end: K, j: nat)
    requires Ancestor(next, k, i) == Some(end) && next(end).None? && Ancestor(next, k, j).Some?
    ensures j <= i
  {
    if i < j {
      AncestorsBefore(next, k, i + 1, j);
    }
  }

  lemma EndIsUnique<K(!new)>(next: K -> Option<K>, k: K, a: K, b: K)
    requires IsEnd(next, k, a) && IsEnd(next, k, b)
    ensures a == b
  {
    var i: nat :| Ancestor(next, k, i) == Some(a) && next(a).None?;
    var j: nat :| Ancestor(next, k, j) == Some(b) && next(b).None?;
    NothingBeyondEnd(next, k, i, a, j);
    NothingBeyondEnd(next, k, j, b, i);
  }
}
