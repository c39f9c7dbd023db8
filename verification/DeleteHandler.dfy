/** The uninstaller's delete-event handler: it removes from a slice in place while ranging
    over it, and closes a channel when nothing is left. */
module DeleteHandler {
  import opened Sequences

  datatype LumigoId = LumigoId(namespace: string, name: string)

  function Itself(l: LumigoId): LumigoId { l }

  ghost predicate NoDuplicates(s: seq<LumigoId>) { DistinctKeys(Itself, s) }

  function Other(deleted: LumigoId): LumigoId -> bool { (l: LumigoId) => l != deleted }

  lemma OnlyThere(s: seq<LumigoId>, p: nat)
    requires NoDuplicates(s) && p < |s|
    ensures s[p] !in s[..p] && s[p] !in s[p + 1..]
  {
    forall i | 0 <= i < |s| && i != p ensures s[i] != s[p] {
      assert Itself(s[i]) != Itself(s[p]);
    }
  }

  lemma FilterDropsOne(s: seq<LumigoId>, p: nat)
    requires NoDuplicates(s) && p < |s|
    ensures Filter(Other(s[p]), s) == s[..p] + s[p + 1..]
  {
    var d, a, b := s[p], s[..p], s[p + 1..];
    assert s == a + [d] + b;
    assert (forall x :: x in a ==> Other(d)(x)) && (forall x :: x in b ==> Other(d)(x)) by {
      OnlyThere(s, p);
    }
    FilterDropsMiddle(Other(d), a, d, b);
  }

  /** `left[..count]` is the slice `lumigoesLeft`; `closed` and `panicked` describe the stop
      channel, which panics when closed a second time. */
  class Handler {
    const items: array<LumigoId>
    const left: array<LumigoId>
    var count: nat
    var closed: bool
    var panicked: bool

    ghost predicate Valid()
      reads this, left
    {
      left != items && count <= left.Length && NoDuplicates(left[..count])
    }

    constructor (items: array<LumigoId>)
      requires NoDuplicates(items[..])
      ensures Valid() && this.items == items && fresh(left) && left[..count] == items[..] && !closed && !panicked
    {
      this.items := items;
      var copied := new LumigoId[items.Length](i requires 0 <= i < items.Length reads items => items[i]);
      left, count, closed, panicked := copied, items.Length, false, false;
      new;
      assert left[..count] == items[..];
    }

    /** `lumigoesLeft = append(lumigoesLeft[:p], lumigoesLeft[p+1:]...)` moves the tail down and
        leaves the last cell as it was. */
    method ShiftDown(p: nat)
      requires count <= left.Length && p < count
      modifies this`count, left
      ensures count == old(count) - 1
      ensures forall k :: 0 <= k < p ==> left[k] == old(left[k])
      ensures forall k :: p <= k < count ==> left[k] == old(left[k + 1])
      ensures left[count] == old(left[count - 1])
    {
      for j := p to count - 1
        invariant count == old(count)
        invariant forall k :: 0 <= k < p ==> left[k] == old(left[k])
        invariant forall k :: p <= k < j ==> left[k] == old(left[k + 1])
        invariant forall k :: j <= k < count ==> left[k] == old(left[k])
      {
        left[j] := left[j + 1];
      }
      count := count - 1;
    }

    /** The range loop: it keeps visiting the cells of the original length, while the slice under
        it shrinks and shifts. */
    method RangeAndRemove(deleted: LumigoId, ghost was: seq<LumigoId>) returns (ghost found: int)
      requires Valid() && was == left[..count]
      modifies this`count, left
      ensures count <= left.Length && IsRemoval(was, deleted, found, left[..count])
    {
      var n := count;
      found := -1;
      for i := 0 to n
        invariant n == |was| <= left.Length && -1 <= found < i
        invariant found == -1 ==>
                    count == n && forall k :: 0 <= k < n ==> left[k] == was[k] && (k < i ==> was[k] != deleted)
        invariant found >= 0 ==> was[found] == deleted && count == n - 1 && left[n - 1] == was[n - 1]
        invariant found >= 0 ==>
                  (forall k :: 0 <= k < found ==> left[k] == was[k])
                  && (forall k :: found <= k < n - 1 ==> left[k] == was[k + 1])
      {
        if found >= 0 {
          var j := if i < n - 1 then i + 1 else i;
          assert left[i] == was[j];
          assert Itself(was[found]) != Itself(was[j]);
        }
        if left[i] == deleted {
          ghost var before := left[..n];
          assert before == was;
          ShiftDown(i);
          assert forall k :: i <= k < n - 1 ==> left[k] == before[k + 1];
          found := i;
        }
      }
      if found >= 0 {
        RemovedPointwise(was, found, left[..count]);
      } else {
        assert left[..count] == was;
      }
    }

    /** The handler. */
    method OnDelete(deleted: LumigoId)
      requires Valid()
      modifies this, left
      ensures Valid()
      ensures left[..count] == Filter(Other(deleted), old(left[..count]))
      ensures items[..] == old(items[..])
      ensures closed == (old(closed) || count == 0)
      ensures panicked == (old(panicked) || (old(closed) && count == 0))
    {
      ghost var was := left[..count];
      ghost var found := RangeAndRemove(deleted, was);
      RemovalIsFilter(was, deleted, found, left[..count]);
      if count == 0 {
        if closed { panicked := true; }
        closed := true;
      }
    }
  }

  /** `now` is `was` without its element at `found`, or all of it if nothing was found. */
  ghost predicate IsRemoval(was: seq<LumigoId>, deleted: LumigoId, found: int, now: seq<LumigoId>) {
    && -1 <= found < |was|
    && (found == -1 ==> now == was && deleted !in was)
    && (found >= 0 ==> was[found] == deleted && now == was[..found] + was[found + 1..])
  }

  lemma RemovedPointwise(was: seq<LumigoId>, found: nat, now: seq<LumigoId>)
    requires found < |was| && |now| == |was| - 1
    requires forall k :: 0 <= k < found ==> now[k] == was[k]
    requires forall k :: found <= k < |now| ==> now[k] == was[k + 1]
    ensures now == was[..found] + was[found + 1..]
  {}

  lemma RemovalIsFilter(was: seq<LumigoId>, deleted: LumigoId, found: int, now: seq<LumigoId>)
    requires NoDuplicates(was) && IsRemoval(was, deleted, found, now)
    ensures now == Filter(Other(deleted), was) && NoDuplicates(now)
  {
    if found >= 0 {
      FilterDropsOne(was, found);
      RemovalKeepsDistinct(was, found);
    } else {
      FilterIdentity(Other(deleted), was);
    }
  }

  lemma RemovalKeepsDistinct(s: seq<LumigoId>, p: nat)
    requires NoDuplicates(s) && p < |s|
    ensures NoDuplicates(s[..p] + s[p + 1..])
  {
    var r := s[..p] + s[p + 1..];
    forall i, j | 0 <= i < j < |r| ensures Itself(r[i]) != Itself(r[j]) {
      assert r[i] == s[if i < p then i else i + 1] && r[j] == s[if j < p then j else j + 1];
    }
  }

  // ---------------------------------------------------------------- sequences of events

  datatype Watch = Watch(left: seq<LumigoId>, closed: bool, panicked: bool)

  /** What `OnDelete` does, on values. */
  function Handled(w: Watch, deleted: LumigoId): Watch {
    var left := Filter(Other(deleted), w.left);
    Watch(left, w.closed || left == [], w.panicked || (w.closed && left == []))
  }

  function HandledAll(w: Watch, events: seq<LumigoId>): Watch {
    if events == [] then w else Handled(HandledAll(w, events[..|events| - 1]), events[|events| - 1])
  }

  function NotIn(events: seq<LumigoId>): LumigoId -> bool { (l: LumigoId) => l !in events }

  lemma {:induction false} FilterTwice<T>(f: T -> bool, g: T -> bool, h: T -> bool, s: seq<T>)
    requires forall x :: x in s ==> h(x) == (f(x) && g(x))
    ensures Filter(g, Filter(f, s)) == Filter(h, s)
  {
    if s != [] {
      FilterTwice(f, g, h, s[1..]);
      FilterConcat(g, if f(s[0]) then [s[0]] else [], Filter(f, s[1..]));
    }
  }

  lemma OneMoreEvent(initial: seq<LumigoId>, events: seq<LumigoId>, e: LumigoId)
    ensures Filter(Other(e), Filter(NotIn(events), initial)) == Filter(NotIn(events + [e]), initial)
  {
    FilterTwice(NotIn(events), Other(e), NotIn(events + [e]), initial);
  }

  lemma HandledStep(w: Watch, e: LumigoId)
    requires (w.closed <==> w.left == []) && (w.panicked ==> w.left == [])
    ensures var r := Handled(w, e);
            && (r.closed <==> r.left == []) && (r.panicked <==> w.left == []) && (r.panicked ==> r.left == [])
  {}

  /** After any events: what is left is the initial list without the deleted ones, in the
      original order; the channel is closed exactly if nothing is left; and a close that comes
      twice, a panic, has happened exactly if nothing was left before the last event already. */
  lemma {:induction false} EventsRemoveExactly(initial: seq<LumigoId>, events: seq<LumigoId>)
    requires initial != []
    ensures var w := HandledAll(Watch(initial, false, false), events);
            && w.left == Filter(NotIn(events), initial)
            && (w.closed <==> w.left == [])
            && (w.panicked ==> w.left == [])
            && (w.panicked <==> events != [] && Filter(NotIn(events[..|events| - 1]), initial) == [])
  {
    if events == [] {
      FilterIdentity(NotIn(events), initial);
    } else {
      var before, e := events[..|events| - 1], events[|events| - 1];
      var w := HandledAll(Watch(initial, false, false), before);
      EventsRemoveExactly(initial, before);
      HandledStep(w, e);
      assert events == before + [e];
      OneMoreEvent(initial, before, e);
      assert HandledAll(Watch(initial, false, false), events) == Handled(w, e);
    }
  }
}
