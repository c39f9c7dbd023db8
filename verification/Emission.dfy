/** New object versions on their way downstream: concurrent calls of `Add`, the goroutine that
    each accepted object waits in, the bounded channel, and the drain loop. */
module Emission {
  import opened Sequences
  import opened ObjectCache

  const CHANNEL_CAPACITY := 200

  /** How far a running `Add` has got: past the "seen already" test, or past the first insert. */
  datatype Call = Checked(item: ApiObject) | GenericInserted(item: ApiObject)

  datatype Pipeline = Pipeline(
    entries: seq<Entry>,
    calls: map<nat, Call>,
    accepted: multiset<ApiObject>,
    waiting: multiset<ApiObject>,
    buffer: seq<ApiObject>,
    drained: seq<ApiObject>)

  const EMPTY := Pipeline([], map[], multiset{}, multiset{}, [], [])

  datatype Step =
    | BeginAdd(thread: nat, item: ApiObject)
    | InsertGeneric(thread: nat)
    | InsertVersioned(thread: nat)
    | Lookup(key: string)
    | Send(item: ApiObject)
    | Receive

  /** Steps that are not possible leave everything as it is. The check and the two inserts are
      separate steps: no lock spans them. */
  function Next(capacity: nat, p: Pipeline, step: Step): Pipeline {
    match step
    case BeginAdd(t, o) =>
      if t in p.calls || !Accepts(p.entries, o) then p else p.(calls := p.calls[t := Checked(o)])
    case InsertGeneric(t) =>
      if t !in p.calls || !p.calls[t].Checked? then p
      else
        var o := p.calls[t].item;
        p.(calls := p.calls[t := GenericInserted(o)], entries := LruAdd(capacity, p.entries, GenericKey(o), Compact(o)))
    case InsertVersioned(t) =>
      if t !in p.calls || !p.calls[t].GenericInserted? then p
      else
        var o := p.calls[t].item;
        p.(calls := p.calls - {t}, entries := LruAdd(capacity, p.entries, VersionedKey(o), Compact(o)),
           accepted := p.accepted + multiset{o}, waiting := p.waiting + multiset{o})
    case Lookup(k) => p.(entries := LruGet(p.entries, k))
    case Send(o) =>
      if o !in p.waiting || |p.buffer| >= CHANNEL_CAPACITY then p
      else p.(waiting := p.waiting - multiset{o}, buffer := p.buffer + [o])
    case Receive =>
      if p.buffer == [] then p else p.(buffer := p.buffer[1..], drained := p.drained + [p.buffer[0]])
  }

  function Run(capacity: nat, p: Pipeline, steps: seq<Step>): Pipeline {
    if steps == [] then p else Next(capacity, Run(capacity, p, steps[..|steps| - 1]), steps[|steps| - 1])
  }

  /** The accepted objects, by where they are. */
  function Everywhere(waiting: multiset<ApiObject>, buffer: seq<ApiObject>, drained: seq<ApiObject>)
    : multiset<ApiObject>
  {
    waiting + (multiset(buffer) + multiset(drained))
  }

  /** Every accepted object is in exactly one place. */
  ghost predicate Conserved(p: Pipeline) {
    p.accepted == Everywhere(p.waiting, p.buffer, p.drained) && |p.buffer| <= CHANNEL_CAPACITY
  }

  lemma AcceptMoves(waiting: multiset<ApiObject>, buffer: seq<ApiObject>, drained: seq<ApiObject>, o: ApiObject)
    ensures Everywhere(waiting + multiset{o}, buffer, drained) == Everywhere(waiting, buffer, drained) + multiset{o}
  {}

  lemma SendMoves(waiting: multiset<ApiObject>, buffer: seq<ApiObject>, drained: seq<ApiObject>, o: ApiObject)
    requires o in waiting
    ensures Everywhere(waiting - multiset{o}, buffer + [o], drained) == Everywhere(waiting, buffer, drained)
  {
    assert multiset(buffer + [o]) == multiset(buffer) + multiset{o};
  }

  lemma ReceiveMoves(waiting: multiset<ApiObject>, buffer: seq<ApiObject>, drained: seq<ApiObject>)
    requires buffer != []
    ensures Everywhere(waiting, buffer[1..], drained + [buffer[0]]) == Everywhere(waiting, buffer, drained)
  {
    assert buffer == [buffer[0]] + buffer[1..];
    assert multiset(buffer) == multiset{buffer[0]} + multiset(buffer[1..]);
    assert multiset(drained + [buffer[0]]) == multiset(drained) + multiset{buffer[0]};
  }

  lemma MoveConserves(capacity: nat, p: Pipeline, step: Step)
    requires Conserved(p) && (step.Send? || step.Receive?)
    ensures Conserved(Next(capacity, p, step))
  {
    if step.Send? && step.item in p.waiting {
      SendMoves(p.waiting, p.buffer, p.drained, step.item);
    } else if step.Receive? && p.buffer != [] {
      ReceiveMoves(p.waiting, p.buffer, p.drained);
    }
  }

  lemma NextConserves(capacity: nat, p: Pipeline, step: Step)
    requires Conserved(p)
    ensures Conserved(Next(capacity, p, step))
  {
    if step.Send? || step.Receive? {
      MoveConserves(capacity, p, step);
    } else if step.InsertVersioned? && step.thread in p.calls {
      AcceptMoves(p.waiting, p.buffer, p.drained, p.calls[step.thread].item);
    }
  }

  /** In every interleaving, accepted objects are neither lost nor duplicated on the way. */
  lemma {:induction false} EmissionConservation(capacity: nat, p: Pipeline, steps: seq<Step>)
    requires Conserved(p)
    ensures Conserved(Run(capacity, p, steps))
  {
    if steps != [] {
      EmissionConservation(capacity, p, steps[..|steps| - 1]);
      NextConserves(capacity, Run(capacity, p, steps[..|steps| - 1]), steps[|steps| - 1]);
    }
  }

  lemma RunThen(capacity: nat, p: Pipeline, steps: seq<Step>, step: Step)
    ensures Run(capacity, p, steps + [step]) == Next(capacity, Run(capacity, p, steps), step)
  {
    assert (steps + [step])[..|steps|] == steps;
  }

  // ---------------------------------------------------------------- deduplication without a lock

  /** `ps` are the states that a run goes through. */
  ghost predicate IsHistory(capacity: nat, steps: seq<Step>, ps: seq<Pipeline>) {
    && |ps| == |steps| + 1 && ps[0] == EMPTY
    && forall i :: 0 <= i < |steps| ==> IsNext(capacity, ps[i], steps[i], ps[i + 1])
  }

  ghost predicate IsNext(capacity: nat, p: Pipeline, step: Step, p': Pipeline) { p' == Next(capacity, p, step) }

  /** Step `i` ends a call of `Add` that accepts the version with key `k`. */
  predicate Accepting(steps: seq<Step>, ps: seq<Pipeline>, i: nat, k: string) {
    && i < |steps| && i < |ps| && steps[i].InsertVersioned? && steps[i].thread in ps[i].calls
    && ps[i].calls[steps[i].thread].GenericInserted? && VersionedKey(ps[i].calls[steps[i].thread].item) == k
  }

  /** Step `b` begins a call of thread `t` that has not seen the version with key `k`. */
  predicate Begins(steps: seq<Step>, ps: seq<Pipeline>, b: nat, t: nat, k: string) {
    && b < |steps| && b < |ps| && steps[b].BeginAdd? && steps[b].thread == t && VersionedKey(steps[b].item) == k
    && t !in ps[b].calls && !Resident(ps[b].entries, k)
  }

  /** Step `e` pushes the key out of the cache. */
  predicate Evicts(ps: seq<Pipeline>, e: nat, k: string) {
    e + 1 < |ps| && Resident(ps[e].entries, k) && !Resident(ps[e + 1].entries, k)
  }

  lemma CallsEvolve(capacity: nat, p: Pipeline, step: Step, t: nat)
    requires t in Next(capacity, p, step).calls
    ensures t in p.calls ==> p.calls[t].item == Next(capacity, p, step).calls[t].item
    ensures t !in p.calls ==>
              step == BeginAdd(t, Next(capacity, p, step).calls[t].item) && Accepts(p.entries, step.item)
  {}

  /** A running call was begun by its thread, and has run ever since. */
  lemma {:induction false} BeginningOf(capacity: nat, steps: seq<Step>, ps: seq<Pipeline>, j: nat, t: nat)
    returns (b: nat)
    requires IsHistory(capacity, steps, ps) && j < |ps| && t in ps[j].calls
    ensures b < j && Begins(steps, ps, b, t, VersionedKey(ps[j].calls[t].item))
    ensures forall x :: b < x <= j ==> t in ps[x].calls
    decreases j
  {
    assert IsNext(capacity, ps[j - 1], steps[j - 1], ps[(j - 1) + 1]);
    CallsEvolve(capacity, ps[j - 1], steps[j - 1], t);
    if t in ps[j - 1].calls {
      b := BeginningOf(capacity, steps, ps, j - 1, t);
    } else {
      b := j - 1;
      assert Begins(steps, ps, b, t, VersionedKey(steps[b].item));
    }
  }

  lemma {:induction false} LosingStep(ps: seq<Pipeline>, p: nat, q: nat, k: string) returns (e: nat)
    requires p < q < |ps| && Resident(ps[p].entries, k) && !Resident(ps[q].entries, k)
    ensures p <= e < q && Evicts(ps, e, k)
    decreases q - p
  {
    e := p;
    if Resident(ps[p + 1].entries, k) {
      e := LosingStep(ps, p + 1, q, k);
    }
  }

  lemma AcceptedIsResident(capacity: nat, steps: seq<Step>, ps: seq<Pipeline>, i: nat, k: string)
    requires IsHistory(capacity, steps, ps) && capacity > 0 && Accepting(steps, ps, i, k)
    ensures Resident(ps[i + 1].entries, k)
  {
    assert IsNext(capacity, ps[i], steps[i], ps[i + 1]);
    assert EntryKey(ps[i + 1].entries[0]) == k;
  }

  /** In every interleaving a version is accepted a second time only if the second call began
      before the first one had ended, or its key was evicted in between. */
  lemma AcceptedTwiceOverlapsOrEvicted(
    capacity: nat, steps: seq<Step>, ps: seq<Pipeline>, i: nat, j: nat, k: string) returns (b: nat)
    requires IsHistory(capacity, steps, ps) && capacity > 0
    requires i < j && Accepting(steps, ps, i, k) && Accepting(steps, ps, j, k)
    ensures b < j && Begins(steps, ps, b, steps[j].thread, k)
    ensures forall x :: b < x <= j ==> steps[j].thread in ps[x].calls
    ensures b < i || exists e :: i < e < b && Evicts(ps, e, k)
  {
    b := BeginningOf(capacity, steps, ps, j, steps[j].thread);
    if b > i {
      AcceptedIsResident(capacity, steps, ps, i, k);
      var e := LosingStep(ps, i + 1, b, k);
    }
  }

  /** Two overlapping calls of `Add` accept the same version twice, whatever the object and the
      capacity: deduplication needs the calls to be serialised. */
  lemma RaceEmitsTwice(capacity: nat, o: ApiObject) returns (steps: seq<Step>)
    ensures Run(capacity, EMPTY, steps).accepted == multiset{o, o}
  {
    RunThen(capacity, EMPTY, [], BeginAdd(0, o));
    steps := [BeginAdd(0, o)];
    RunThen(capacity, EMPTY, steps, BeginAdd(1, o));
    steps := steps + [BeginAdd(1, o)];
    assert Run(capacity, EMPTY, steps) == EMPTY.(calls := map[0 := Checked(o), 1 := Checked(o)]);
    steps := Finish(capacity, steps, 0, o);
    assert Run(capacity, EMPTY, steps).calls == map[1 := Checked(o)];
    steps := Finish(capacity, steps, 1, o);
  }

  lemma Finish(capacity: nat, before: seq<Step>, t: nat, o: ApiObject) returns (steps: seq<Step>)
    requires t in Run(capacity, EMPTY, before).calls && Run(capacity, EMPTY, before).calls[t] == Checked(o)
    ensures Run(capacity, EMPTY, steps).accepted == Run(capacity, EMPTY, before).accepted + multiset{o}
    ensures Run(capacity, EMPTY, steps).calls == Run(capacity, EMPTY, before).calls - {t}
  {
    RunThen(capacity, EMPTY, before, InsertGeneric(t));
    steps := before + [InsertGeneric(t)];
    RunThen(capacity, EMPTY, steps, InsertVersioned(t));
    steps := steps + [InsertVersioned(t)];
  }

  /** The receiving end as the log processor uses it. `offered` is what senders, present and
      future, still want to send, in the order in which they get through; `sends(n)` is how many
      of them do around the `n`-th receive, as far as there is room. */
  class Channel {
    const sends: nat -> nat
    var buffer: seq<ApiObject>
    var offered: seq<ApiObject>

    method Refill(n: nat)
      requires |buffer| <= CHANNEL_CAPACITY
      modifies this
      ensures |old(buffer)| <= |buffer| <= CHANNEL_CAPACITY && buffer + offered == old(buffer + offered)
    {
      var room := CHANNEL_CAPACITY - |buffer|;
      var through := if sends(n) < room then sends(n) else room;
      through := if through < |offered| then through else |offered|;
      assert offered == offered[..through] + offered[through..];
      buffer, offered := buffer + offered[..through], offered[through..];
    }

    method Receive(n: nat) returns (o: ApiObject)
      requires buffer != [] && |buffer| <= CHANNEL_CAPACITY
      modifies this
      ensures |old(buffer)| - 1 <= |buffer| <= CHANNEL_CAPACITY
      ensures [o] + (buffer + offered) == old(buffer + offered)
    {
      o := buffer[0];
      assert buffer + offered == [o] + (buffer[1..] + offered);
      buffer := buffer[1..];
      Refill(n);
    }

    /** Take objects until the channel is empty for a moment, then emit a record for each that
        converts: everything that was in the channel, and a beginning of what was offered. */
    method DrainInto(converts: ApiObject -> bool) returns (records: seq<ApiObject>)
      requires |buffer| <= CHANNEL_CAPACITY
      modifies this
      ensures buffer == [] && |offered| <= |old(offered)|
      ensures offered == old(offered)[|old(offered)| - |offered|..]
      ensures records == Filter(converts, old(buffer) + old(offered)[..|old(offered)| - |offered|])
    {
      var received, n := [], 0;
      while buffer != []
        invariant |buffer| <= CHANNEL_CAPACITY && |old(buffer)| <= |received| + |buffer|
        invariant received + (buffer + offered) == old(buffer + offered)
        decreases |buffer + offered|
      {
        var o := Receive(n);
        received, n := received + [o], n + 1;
      }
      assert received + offered == received + (buffer + offered);
      DrainedSplits(old(buffer), old(offered), received, offered);
      records := Retain(converts, received);
    }
  }

  lemma DrainedSplits(buffer: seq<ApiObject>, offered: seq<ApiObject>, received: seq<ApiObject>, left: seq<ApiObject>)
    requires received + left == buffer + offered && |buffer| <= |received|
    ensures |left| <= |offered| && left == offered[|offered| - |left|..]
    ensures received == buffer + offered[..|offered| - |left|]
  {
    var all := buffer + offered;
    assert received == all[..|received|] && left == all[|received|..];
  }
}
