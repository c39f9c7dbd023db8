/** The controller's passes over a namespace, against an API server whose calls may fail in any
    pattern. */
module ResourcePasses {
  import opened Sequences
  import opened Injection
  import opened Workloads
  import opened StoredForm
  import opened InjectorWebhook
  import opened Passes
  import opened DeletionPass
  import opened InjectionPass

  const MAX_ATTEMPTS := 5

  // ---------------------------------------------------------------- progress of a pass

  /** What does not change during a pass. */
  datatype Context = Context(cfg: OperatorConfig, lumigos: Listing, pass: Pass) {
    function After(w: Workload): Workload { Final(cfg, lumigos, pass, w) }
    predicate Done(w: Workload) { Processed(cfg, lumigos, pass, w) }
    predicate Fails(w: Workload) { Try(cfg, pass, w).Fails? }
    predicate Breaks(w: Workload) { Fragile(cfg, lumigos, pass, w) }
  }

  type Objects = map<Key, Workload>

  /** The keys in `done` have been through the pass and nothing else has changed. */
  ghost predicate Progress(c: Context, before: Objects, now: Objects, done: set<Key>) {
    now.Keys == before.Keys && forall k :: k in before ==> now[k] == if k in done then c.After(before[k]) else before[k]
  }

  predicate InPass(pass: Pass, before: Objects, namespace: string, kind: Kind, k: Key) {
    k in before && k.namespace == namespace && k.kind == kind && Lists(pass, before[k])
  }

  ghost predicate WellKept(store: Objects) {
    && (forall k :: k in store ==> store[k].Key() == k)
    && (forall k {:trigger IsAtRest(store[k])} :: k in store ==> IsAtRest(store[k]))
  }

  lemma SamePut(store: Objects, k: Key)
    requires k in store
    ensures store[k := store[k]] == store
  {}

  lemma KeptAfterPut(store: Objects, k: Key, w: Workload)
    requires WellKept(store) && w.Key() == k && IsAtRest(w)
    ensures WellKept(store[k := w])
  {}

  /** A listed ReplicaSet of the namespace has an owner whose API version does not parse. */
  ghost predicate Blocked(pass: Pass, store: Objects, namespace: string) {
    exists k :: InPass(pass, store, namespace, ReplicaSet, k) && HasDeploymentOwner(store[k].owners).None?
  }

  /** A retry on some listed workload of the namespace would panic. */
  ghost predicate AnyBreaks(c: Context, store: Objects, namespace: string) {
    exists k: Key :: InPass(c.pass, store, namespace, k.kind, k) && c.Breaks(store[k])
  }

  /** There is an auto-trace label, and it is not "false". */
  predicate AsksForTracing(labels: Labels) {
    labels.Some? && "lumigo.auto-trace" in labels.value && labels.value["lumigo.auto-trace"] != "false"
  }

  /** Every workload that the removal pass is for has exactly its removed spec, as stored. */
  ghost predicate Cleared(before: Objects, now: Objects, namespace: string) {
    && now.Keys == before.Keys
    && forall k :: k in before && k.namespace == namespace && k.kind != Job && AsksForTracing(before[k].labels)
                   && SkipsReplicaSet(before[k]).None? ==>
         now[k].spec == SpecAtRest(RemovePodSpec(before[k].spec))
  }

  /** Every workload that the injection pass is for carries the prevailing instrumentation. */
  ghost predicate Equipped(c: Context, l: LumigoView, before: Objects, now: Objects, namespace: string) {
    && now.Keys == before.Keys
    && forall k :: k in before && k.namespace == namespace && Reachable(l, before[k]) ==>
         Carries(Prevailing(c.cfg, c.lumigos, l, before[k]), now[k].spec)
  }

  lemma Untouched(c: Context, before: Objects, now: Objects, done: set<Key>, k: Key)
    requires Progress(c, before, now, done) && k !in done
    ensures k in now <==> k in before
    ensures k in now ==> now[k] == before[k]
  {}

  lemma Advance(c: Context, before: Objects, was: Objects, now: Objects, done: set<Key>, k: Key)
    requires Progress(c, before, was, done) && k in before && now == was[k := c.After(before[k])]
    ensures Progress(c, before, now, done + {k})
  {}

  /** Everything listed of these kinds is done. */
  ghost predicate AllProcessed(c: Context, before: Objects, namespace: string, kinds: seq<Kind>, done: set<Key>) {
    forall k: Key :: InPass(c.pass, before, namespace, k.kind, k) && k.kind in kinds ==> k in done && c.Done(before[k])
  }

  lemma AttemptsSettle(c: Context, w: Workload)
    requires IsAtRest(w) && Lists(c.pass, w)
    ensures Settles(c.cfg, c.lumigos, c.pass, w)
  {
    match c.pass
    case Removing => RemovalSettlesWorkload(c.cfg, c.lumigos, w);
    case Injecting(l) => InjectionSettlesWorkload(c.cfg, c.lumigos, l, w);
  }

  /** What the attempts on one workload can lead to. */
  datatype Plan = Plan(w: Workload, target: Workload, hopeless: bool, doable: bool, breaks: bool)

  /** An attempt on `current` keeps to the plan. */
  ghost predicate Conducts(c: Context, p: Plan, current: Workload) {
    var t := Try(c.cfg, c.pass, current);
    && (t.Fails? ==> p.hopeless)
    && (t.NothingToDo? ==> current == p.target && p.doable)
    && (t.Panics? ==> current == p.target && p.breaks)
    && (t.Sends? ==>
          var admission := Admit(c.cfg, c.lumigos, t.workload);
          && t.workload.Key() == p.w.Key()
          && (admission.Admitted? ==> admission.workload == p.target && p.doable)
          && (admission.Denied? ==> c.lumigos.ListFailed?))
  }

  /** Attempts on the workload as it was listed, or as an earlier attempt left it, do. */
  ghost predicate Fits(c: Context, p: Plan) {
    && (p.breaks ==> p.target != p.w)
    && forall current :: current == p.w || current == p.target ==> Conducts(c, p, current)
  }

  lemma FittingConducts(c: Context, p: Plan, current: Workload)
    requires Fits(c, p) && (current == p.w || current == p.target)
    ensures Conducts(c, p, current)
  {}

  function PlanFor(c: Context, w: Workload): Plan { Plan(w, c.After(w), c.Fails(w), c.Done(w), c.Breaks(w)) }

  lemma AttemptConducts(c: Context, w: Workload, current: Workload)
    requires IsAtRest(w) && Lists(c.pass, w) && (current == w || current == c.After(w))
    ensures Conducts(c, PlanFor(c, w), current)
  {
    AttemptsSettle(c, w);
    TryKeepsKey(c.cfg, c.pass, current);
    FinalKeeps(c.cfg, c.lumigos, c.pass, w);
    if Try(c.cfg, c.pass, current).Sends? {
      AdmitKeeps(c.cfg, c.lumigos, Try(c.cfg, c.pass, current).workload);
    }
  }

  lemma PlanFits(c: Context, w: Workload)
    requires IsAtRest(w) && Lists(c.pass, w)
    ensures Fits(c, PlanFor(c, w))
  {
    AttemptsSettle(c, w);
    forall current | current == w || current == c.After(w) ensures Conducts(c, PlanFor(c, w), current) {
      AttemptConducts(c, w, current);
    }
  }

  /** The kinds in the order of both passes. */
  const KINDS := [DaemonSet, Deployment, ReplicaSet, StatefulSet, CronJob]

  lemma KindsInOrder(n: nat)
    requires n <= 5
    ensures |KINDS| == 5 && forall kind: Kind :: !kind.Job? ==> kind in KINDS[..5]
    ensures n > 2 ==> ReplicaSet in KINDS[..n]
    ensures n <= 2 ==> StatefulSet !in KINDS[..n] && CronJob !in KINDS[..n]
    ensures n <= 2 ==> !KINDS[n].StatefulSet? && !KINDS[n].CronJob?
  {
    assert KINDS[0].DaemonSet? && KINDS[1].Deployment? && KINDS[2].ReplicaSet? && KINDS[3].StatefulSet?
           && KINDS[4].CronJob?;
    forall kind: Kind | !kind.Job? ensures kind in KINDS[..5] {
      assert KINDS[..5] == KINDS;
    }
    if n > 2 {
      assert KINDS[..n][2].ReplicaSet?;
    }
  }

  lemma BlockedStops(c: Context, before: Objects, namespace: string, done: set<Key>, reached: nat)
    requires Blocked(c.pass, before, namespace) && reached <= 5 && WellKept(before)
    requires AllProcessed(c, before, namespace, KINDS[..reached], done)
    ensures reached <= 2
  {
    KindsInOrder(reached);
    var k :| InPass(c.pass, before, namespace, ReplicaSet, k) && HasDeploymentOwner(before[k].owners).None?;
    assert before[k].Key() == k;
    OnlyReplicaSetsFail(c.cfg, c.pass, before[k]);
  }

  lemma FailureBlocks(c: Context, before: Objects, namespace: string, kind: Kind, k: Key)
    requires InPass(c.pass, before, namespace, kind, k) && c.Fails(before[k]) && WellKept(before)
    ensures Blocked(c.pass, before, namespace)
  {
    assert before[k].Key() == k;
    OnlyReplicaSetsFail(c.cfg, c.pass, before[k]);
    assert InPass(c.pass, before, namespace, ReplicaSet, k);
  }

  // ---------------------------------------------------------------- calls that fail

  /** How a call of the API goes: it is answered, refused without effect (a conflict or an
      outage), or carried out although its response is lost. */
  datatype Reply = Answered | Refused | Lost

  /** How many of the calls `from`, ..., `end - 1` go wrong. */
  function Failures(calls: nat -> Reply, from: nat, end: nat): nat
    decreases end
  {
    if end <= from then 0 else Failures(calls, from, end - 1) + if calls(end - 1).Answered? then 0 else 1
  }

  lemma {:induction false} FailuresAdd(calls: nat -> Reply, from: nat, mid: nat, end: nat)
    requires from <= mid <= end
    ensures Failures(calls, from, end) == Failures(calls, from, mid) + Failures(calls, mid, end)
    decreases end
  {
    if mid < end {
      FailuresAdd(calls, from, mid, end - 1);
    }
  }

  lemma SomeFailure(calls: nat -> Reply, from: nat, end: nat, i: nat)
    requires from <= i < end && !calls(i).Answered?
    ensures Failures(calls, from, end) >= 1
  {
    FailuresAdd(calls, from, i + 1, end);
  }

  lemma {:induction false} NoFailures(calls: nat -> Reply, from: nat, end: nat)
    requires forall i: nat :: from <= i < end ==> calls(i).Answered?
    ensures Failures(calls, from, end) == 0
    decreases end
  {
    if from < end {
      NoFailures(calls, from, end - 1);
    }
  }

  ghost predicate AnyLost(calls: nat -> Reply, from: nat, end: nat) {
    exists i: nat :: from <= i < end && calls(i).Lost?
  }

  lemma LostSince(calls: nat -> Reply, from: nat, mid: nat, end: nat)
    requires from <= mid
    ensures AnyLost(calls, mid, end) ==> AnyLost(calls, from, end)
  {}

  /** How a retried closure ends; a panic ends the whole pass. */
  datatype Ending = Succeeded | GaveUp | Panicked

  // ---------------------------------------------------------------- the passes

  /** The API server during one reconcile. `calls` decides how its `tick`-th Get or Update goes
      and `listings` whether its `lists`-th listing is answered: any pattern of failures is
      possible, and contracts can speak about it. Objects are kept as they are stored. */
  class ApiServer {
    const cfg: OperatorConfig
    const lumigos: Listing
    const calls: nat -> Reply
    const listings: nat -> bool
    var store: Objects
    var tick: nat
    var lists: nat

    constructor (cfg: OperatorConfig, lumigos: Listing, calls: nat -> Reply, listings: nat -> bool, store: Objects)
      requires WellKept(store)
      ensures this.cfg == cfg && this.lumigos == lumigos && this.calls == calls && this.listings == listings
      ensures Valid() && this.store == store && tick == 0 && lists == 0
    {
      this.cfg, this.lumigos, this.calls, this.listings := cfg, lumigos, calls, listings;
      this.store, tick, lists := store, 0, 0;
    }

    ghost predicate Valid()
      reads this
    {
      WellKept(store)
    }

    function During(pass: Pass): Context { Context(cfg, lumigos, pass) }

    /** Since then all listings were answered, and fewer Gets and Updates failed than one
        workload may be retried. */
    ghost predicate CalmSince(fromTick: nat, fromList: nat)
      reads this
    {
      (forall i: nat :: fromList <= i < lists ==> listings(i)) && Failures(calls, fromTick, tick) < MAX_ATTEMPTS
    }

    ghost predicate AllAnsweredSince(fromTick: nat, fromList: nat)
      reads this
    {
      && (forall i: nat :: fromList <= i < lists ==> listings(i))
      && (forall i: nat :: fromTick <= i < tick ==> calls(i).Answered?)
    }

    method Get(k: Key) returns (w: Option<Workload>)
      modifies this`tick
      ensures tick == old(tick) + 1
      ensures w == if calls(old(tick)).Answered? && k in store then Some(store[k]) else None
    {
      tick := tick + 1;
      if !calls(tick - 1).Answered? || k !in store { return None; }
      return Some(store[k]);
    }

    method Update(w: Workload) returns (ok: bool)
      requires Valid() && w.Key() in store
      modifies this`store, this`tick
      ensures Valid() && tick == old(tick) + 1
      ensures var admission, reply := Admit(cfg, lumigos, w), calls(old(tick));
              && ok == (admission.Admitted? && reply.Answered?)
              && store == if admission.Admitted? && !reply.Refused? then old(store)[w.Key() := admission.workload]
                          else old(store)
    {
      tick := tick + 1;
      var admission := Admit(cfg, lumigos, w);
      AdmitKeeps(cfg, lumigos, w);
      if admission.Denied? || calls(tick - 1).Refused? { return false; }
      KeptAfterPut(store, w.Key(), admission.workload);
      store := store[w.Key() := admission.workload];
      return calls(tick - 1).Answered?;
    }

    method List(pass: Pass, namespace: string, kind: Kind) returns (keys: Option<seq<Key>>)
      modifies this`lists
      ensures lists == old(lists) + 1 && (keys.Some? <==> listings(old(lists)))
      ensures keys.Some? ==>
                && (forall i, j :: 0 <= i < j < |keys.value| ==> keys.value[i] != keys.value[j])
                && (forall k :: k in keys.value <==> InPass(pass, store, namespace, kind, k))
    {
      lists := lists + 1;
      if !listings(lists - 1) { return None; }
      var todo := set k | k in store && InPass(pass, store, namespace, kind, k);
      var found: seq<Key> := [];
      ghost var all := todo;
      while todo != {}
        invariant forall i, j :: 0 <= i < j < |found| ==> found[i] != found[j]
        invariant forall k :: k in all <==> k in todo || k in found
        invariant forall k :: k in found ==> k !in todo
        decreases todo
      {
        var k :| k in todo;
        todo, found := todo - {k}, found + [k];
      }
      return Some(found);
    }

    /** Mutate a deep copy of the workload that was fetched. */
    method Prepare(pass: Pass, current: Workload) returns (t: Attempt)
      ensures t == Try(cfg, pass, current)
    {
      var copy := new WorkloadObject(current);
      var done, occurred;
      match pass {
        case Removing =>
          done, occurred := copy.RemoveLumigoFrom();
          if !done { return Fails; }
          if !occurred { return NothingToDo; }
          if copy.labels.None? { return Panics; }
          copy.labels := WithLabel(copy.labels, SKIP_NEXT_INJECTOR);
        case Injecting(l) =>
          done, occurred := copy.InjectLumigoInto(MutatorFromSpec(cfg, l));
          if !done { return Fails; }
          if !occurred { return NothingToDo; }
      }
      return Sends(copy.Value());
    }

    /** Send what was prepared, if anything. */
    method Conclude(k: Key, t: Attempt, ghost target: Workload) returns (e: Ending)
      requires Valid() && k in store && (t.NothingToDo? ==> store[k] == target)
      requires t.Sends? ==> t.workload.Key() == k
      requires t.Sends? && Admit(cfg, lumigos, t.workload).Admitted? ==>
                 Admit(cfg, lumigos, t.workload).workload == target
      modifies this`store, this`tick
      ensures Valid() && tick == old(tick) + (if t.Sends? then 1 else 0)
      ensures store == if t.Sends? && Admit(cfg, lumigos, t.workload).Admitted? && !calls(old(tick)).Refused?
                       then old(store)[k := target] else old(store)
      ensures e.Panicked? <==> t.Panics?
      ensures e.Succeeded? <==>
                t.NothingToDo? || (t.Sends? && Admit(cfg, lumigos, t.workload).Admitted? && calls(old(tick)).Answered?)
    {
      match t {
        case Fails => return GaveUp;
        case Panics => return Panicked;
        case NothingToDo => return Succeeded;
        case Sends(x) =>
          var ok := Update(x);
          return if ok then Succeeded else GaveUp;
      }
    }

    /** The rest of the closure, once the workload has been fetched. */
    method Act(pass: Pass, k: Key, current: Workload, ghost p: Plan) returns (e: Ending)
      requires Valid() && k in store && store[k] == current && p.w.Key() == k && Fits(During(pass), p)
      requires current == p.w || current == p.target
      modifies this`store, this`tick
      ensures Valid() && old(tick) <= tick <= old(tick) + 1
      ensures store == old(store) ||
              (store == old(store)[k := p.target] && (e.Succeeded? || (tick > old(tick) && calls(tick - 1).Lost?)))
      ensures e.Succeeded? ==> p.doable && store == old(store)[k := p.target]
      ensures e.Panicked? <==> Try(cfg, pass, current).Panics?
      ensures e.Panicked? ==> p.breaks && current == p.target && store == old(store)
      ensures e.GaveUp? && !p.hopeless && !lumigos.ListFailed? ==> tick > old(tick) && !calls(tick - 1).Answered?
    {
      FittingConducts(During(pass), p, current);
      var t := Prepare(pass, current);
      if t.NothingToDo? { SamePut(store, k); }
      e := Conclude(k, t, p.target);
    }

    /** The closure that is retried: Get, mutate a copy, Update. It fails only if the workload
        cannot be handled, the webhook denies, or a call goes wrong; and it panics only on a
        workload that an earlier attempt has updated. */
    method Once(pass: Pass, k: Key, ghost p: Plan) returns (e: Ending)
      requires Valid() && k in store && p.w.Key() == k && Fits(During(pass), p)
      requires store[k] == p.w || store[k] == p.target
      modifies this`store, this`tick
      ensures Valid() && old(tick) < tick
      ensures store == old(store) ||
              (store == old(store)[k := p.target] && (e.Succeeded? || calls(tick - 1).Lost?))
      ensures e.Succeeded? ==> p.doable && store == old(store)[k := p.target]
      ensures e.Panicked? ==> p.breaks && old(store)[k] == p.target && store == old(store)
      ensures e.GaveUp? && !p.hopeless && !lumigos.ListFailed? ==> !calls(tick - 1).Answered?
    {
      var current := Get(k);
      if current.None? { return GaveUp; }
      e := Act(pass, k, current.value, p);
    }

    /** `retry`: all or nothing even if responses get lost. On a workload that can be handled it
        gives up only after as many failed calls as there are attempts; it panics only after a
        lost response. */
    method WithRetry(pass: Pass, k: Key, ghost p: Plan) returns (e: Ending)
      requires Valid() && k in store && p.w.Key() == k && Fits(During(pass), p) && store[k] == p.w
      modifies this`store, this`tick
      ensures Valid() && old(tick) <= tick
      ensures store == old(store) || store == old(store)[k := p.target]
      ensures e.Succeeded? ==> p.doable && store == old(store)[k := p.target]
      ensures e.Panicked? ==> p.breaks && AnyLost(calls, old(tick), tick)
      ensures e.GaveUp? && !p.hopeless && !lumigos.ListFailed? ==> Failures(calls, old(tick), tick) >= MAX_ATTEMPTS
    {
      e := GaveUp;
      ghost var lostAt := tick;
      for attempt := 1 to MAX_ATTEMPTS + 1
        invariant Valid() && old(tick) <= tick && e.GaveUp?
        invariant store == old(store) ||
                  (store == old(store)[k := p.target] && old(tick) <= lostAt < tick && calls(lostAt).Lost?)
        invariant !p.hopeless && !lumigos.ListFailed? ==> Failures(calls, old(tick), tick) >= attempt - 1
      {
        ghost var from := tick;
        e := Once(pass, k, p);
        if !e.GaveUp? { return; }
        if calls(tick - 1).Lost? { lostAt := tick - 1; }
        FailuresAdd(calls, old(tick), from, tick);
        if !calls(tick - 1).Answered? { SomeFailure(calls, from, tick, tick - 1); }
      }
    }

    lemma CalmBefore(fromTick: nat, midTick: nat, fromList: nat, midList: nat)
      requires fromTick <= midTick <= tick && fromList <= midList && CalmSince(fromTick, fromList)
      ensures CalmSince(midTick, midList)
    {
      FailuresAdd(calls, fromTick, midTick, tick);
    }

    /** The next workload of a loop, with the set of those that are through. */
    method Process(pass: Pass, k: Key, ghost before: Objects, ghost done0: set<Key>)
      returns (e: Ending, ghost done: set<Key>)
      requires Valid() && WellKept(before) && Progress(During(pass), before, store, done0)
      requires k in before && k !in done0 && Lists(pass, before[k])
      modifies this`store, this`tick
      ensures Valid() && old(tick) <= tick && Progress(During(pass), before, store, done)
      ensures done0 <= done <= done0 + {k}
      ensures e.Succeeded? ==> k in done && During(pass).Done(before[k])
      ensures e.Panicked? ==> During(pass).Breaks(before[k]) && AnyLost(calls, old(tick), tick)
      ensures e.GaveUp? && !During(pass).Fails(before[k]) && !lumigos.ListFailed? ==>
                Failures(calls, old(tick), tick) >= MAX_ATTEMPTS
    {
      done := done0;
      Untouched(During(pass), before, store, done, k);
      ghost var was := store;
      PlanFits(During(pass), before[k]);
      e := WithRetry(pass, k, PlanFor(During(pass), before[k]));
      if e.Succeeded? || store != was {
        Advance(During(pass), before, was, store, done, k);
        done := done + {k};
      }
    }

    /** Why a loop over listed workloads ended early, if not for want of calm. */
    ghost predicate Stumbles(pass: Pass, w: Workload, from: nat)
      reads this
    {
      During(pass).Fails(w) || (During(pass).Breaks(w) && AnyLost(calls, from, tick))
    }

    method ProcessListed(pass: Pass, keys: seq<Key>, ghost before: Objects, ghost done0: set<Key>)
      returns (ok: bool, ghost done: set<Key>)
      requires Valid() && WellKept(before) && Progress(During(pass), before, store, done0)
      requires forall i, j :: 0 <= i < j < |keys| ==> keys[i] != keys[j]
      requires forall k :: k in keys ==> k in before && k !in done0 && Lists(pass, before[k])
      modifies this`store, this`tick
      ensures Valid() && old(tick) <= tick && Progress(During(pass), before, store, done) && done0 <= done
      ensures forall k :: k in done ==> k in done0 || k in keys
      ensures ok ==> forall k :: k in keys ==> k in done && During(pass).Done(before[k])
      ensures !ok && !lumigos.ListFailed? && Failures(calls, old(tick), tick) < MAX_ATTEMPTS ==>
                exists k :: k in keys && Stumbles(pass, before[k], old(tick))
    {
      done := done0;
      for i := 0 to |keys|
        invariant Valid() && old(tick) <= tick && Progress(During(pass), before, store, done) && done0 <= done
        invariant forall k :: k in done ==> k in done0 || k in keys[..i]
        invariant forall j :: 0 <= j < i ==> keys[j] in done && keys[j] in before && During(pass).Done(before[keys[j]])
      {
        var k := keys[i];
        assert k in keys && k !in done;
        ghost var from := tick;
        var e;
        e, done := Process(pass, k, before, done);
        if !e.Succeeded? {
          FailuresAdd(calls, old(tick), from, tick);
          LostSince(calls, old(tick), from, tick);
          return false, done;
        }
      }
      ok := true;
    }

    /** One list-and-process loop. */
    method ProcessKind(pass: Pass, namespace: string, kind: Kind, ghost before: Objects, ghost done0: set<Key>)
      returns (ok: bool, ghost done: set<Key>)
      requires Valid() && WellKept(before) && Progress(During(pass), before, store, done0)
      requires forall k :: k in done0 ==> k.kind != kind
      modifies this
      ensures Valid() && old(tick) <= tick && old(lists) <= lists
      ensures Progress(During(pass), before, store, done) && done0 <= done
      ensures forall k :: k in done ==> k in done0 || InPass(pass, before, namespace, kind, k)
      ensures ok ==> forall k :: InPass(pass, before, namespace, kind, k) ==> k in done && During(pass).Done(before[k])
      ensures !ok && CalmSince(old(tick), old(lists)) && !lumigos.ListFailed? ==>
                exists k :: InPass(pass, before, namespace, kind, k) && Stumbles(pass, before[k], old(tick))
    {
      done := done0;
      var keys := List(pass, namespace, kind);
      if keys.None? { return false, done; }
      forall k: Key ensures k in keys.value <==> InPass(pass, before, namespace, kind, k) {
        if k.kind == kind { Untouched(During(pass), before, store, done, k); }
      }
      ok, done := ProcessListed(pass, keys.value, before, done);
    }

    /** The loops one after the other, up to the first that fails. */
    method ProcessKinds(pass: Pass, namespace: string, kinds: seq<Kind>)
      returns (ok: bool, ghost done: set<Key>, ghost reached: nat)
      requires Valid() && forall i :: 0 <= i < |kinds| ==> kinds[i] !in kinds[..i]
      modifies this
      ensures Valid() && old(tick) <= tick && old(lists) <= lists
      ensures Progress(During(pass), old(store), store, done)
      ensures if ok then reached == |kinds| else reached < |kinds|
      ensures forall k :: k in done ==> InPass(pass, old(store), namespace, k.kind, k)
      ensures forall k :: k in done ==> k.kind in kinds[..reached] || (!ok && k.kind == kinds[reached])
      ensures AllProcessed(During(pass), old(store), namespace, kinds[..reached], done)
      ensures !ok && CalmSince(old(tick), old(lists)) && !lumigos.ListFailed? ==>
                exists k :: InPass(pass, old(store), namespace, kinds[reached], k)
                            && Stumbles(pass, old(store)[k], old(tick))
    {
      ghost var before := store;
      done, reached, ok := {}, 0, true;
      for i := 0 to |kinds|
        invariant ok && reached == i
        invariant Valid() && old(tick) <= tick && old(lists) <= lists
        invariant Progress(During(pass), before, store, done)
        invariant forall k :: k in done ==> k.kind in kinds[..i] && InPass(pass, before, namespace, k.kind, k)
        invariant AllProcessed(During(pass), before, namespace, kinds[..i], done)
      {
        ghost var fromTick, fromList := tick, lists;
        ok, done := ProcessKind(pass, namespace, kinds[i], before, done);
        assert kinds[..i + 1] == kinds[..i] + [kinds[i]];
        if !ok {
          if CalmSince(old(tick), old(lists)) { CalmBefore(old(tick), fromTick, old(lists), fromList); }
          LostSince(calls, old(tick), fromTick, tick);
          return;
        }
        reached := i + 1;
      }
    }

    /** Either pass. On success everything listed is done; whatever happens, every workload is
        either untouched or fully processed. In calm conditions the pass succeeds exactly if no
        listed ReplicaSet blocks it, provided that no response is lost or no retry can panic; a
        ReplicaSet that blocks makes it fail in any conditions, and before any StatefulSet or
        CronJob is reached. */
    method RunPass(pass: Pass, namespace: string) returns (ok: bool)
      requires Valid()
      modifies this
      ensures Valid() && old(tick) <= tick && old(lists) <= lists && store.Keys == old(store).Keys
      ensures forall k :: k in store ==>
                store[k] == old(store)[k] || store[k] == During(pass).After(old(store)[k])
      ensures forall k :: k in store && !InPass(pass, old(store), namespace, k.kind, k) ==> store[k] == old(store)[k]
      ensures ok ==> forall k :: k in store && InPass(pass, old(store), namespace, k.kind, k) ==>
                store[k] == During(pass).After(old(store)[k]) && During(pass).Done(old(store)[k])
      ensures CalmSince(old(tick), old(lists)) && !lumigos.ListFailed?
              && (!AnyLost(calls, old(tick), tick) || !AnyBreaks(During(pass), old(store), namespace)) ==>
                (ok <==> !Blocked(pass, old(store), namespace))
      ensures Blocked(pass, old(store), namespace) ==>
                !ok && forall k :: k in store && (k.kind.StatefulSet? || k.kind.CronJob?) ==> store[k] == old(store)[k]
    {
      ghost var done, reached;
      ok, done, reached := ProcessKinds(pass, namespace, KINDS);
      KindsInOrder(reached);
      if Blocked(pass, old(store), namespace) {
        BlockedStops(During(pass), old(store), namespace, done, reached);
      }
      if !ok {
        if CalmSince(old(tick), old(lists)) && !lumigos.ListFailed? {
          var k :| InPass(pass, old(store), namespace, KINDS[reached], k) && Stumbles(pass, old(store)[k], old(tick));
          if During(pass).Fails(old(store)[k]) {
            FailureBlocks(During(pass), old(store), namespace, KINDS[reached], k);
          } else {
            assert InPass(pass, old(store), namespace, k.kind, k);
          }
        }
        return;
      }
      var jobs := List(pass, namespace, Job);
      ok := jobs.Some?;
    }

    /** The removal pass. When it reports success, every selected workload of the namespace that
        is not a Job and not left to a Deployment has exactly its removed spec. */
    method RemoveLumigoFromResources(namespace: string) returns (ok: bool)
      requires Valid()
      modifies this
      ensures Valid() && old(tick) <= tick && old(lists) <= lists && store.Keys == old(store).Keys
      ensures forall k :: k in store ==>
                store[k] == old(store)[k] || store[k] == AfterPass(cfg, lumigos, old(store)[k])
      ensures forall k :: k in store && (k.namespace != namespace || k.kind == Job
                                         || !AsksForTracing(old(store)[k].labels)) ==>
                store[k] == old(store)[k]
      ensures ok ==> Cleared(old(store), store, namespace)
      ensures AllAnsweredSince(old(tick), old(lists)) && !lumigos.ListFailed? ==>
                (ok <==> !Blocked(Removing, old(store), namespace))
      ensures CalmSince(old(tick), old(lists)) && !lumigos.ListFailed?
              && (!AnyLost(calls, old(tick), tick) || !AnyBreaks(During(Removing), old(store), namespace)) ==>
                (ok <==> !Blocked(Removing, old(store), namespace))
      ensures Blocked(Removing, old(store), namespace) ==>
                !ok && forall k :: k in store && (k.kind.StatefulSet? || k.kind.CronJob?) ==> store[k] == old(store)[k]
    {
      ok := RunPass(Removing, namespace);
      if AllAnsweredSince(old(tick), old(lists)) { NoFailures(calls, old(tick), tick); }
      forall k | ok && k in store && k.namespace == namespace && k.kind != Job
                 && AsksForTracing(old(store)[k].labels) && SkipsReplicaSet(old(store)[k]).None?
        ensures store[k].spec == SpecAtRest(RemovePodSpec(old(store)[k].spec))
      {
        assert old(store)[k].Key() == k && InPass(Removing, old(store), namespace, k.kind, k);
        RemovalSettlesWorkload(cfg, lumigos, old(store)[k]);
      }
    }

    /** The initial injection pass. When it reports success, every unlabelled workload of the
        namespace that is not a Job and not left to a Deployment is instrumented; in calm
        conditions it succeeds exactly if no listed ReplicaSet blocks it, lost responses or not. */
    method InjectLumigoIntoResources(l: LumigoView, namespace: string) returns (ok: bool)
      requires Valid()
      modifies this
      ensures Valid() && old(tick) <= tick && old(lists) <= lists && store.Keys == old(store).Keys
      ensures forall k :: k in store && !InPass(Injecting(l), old(store), namespace, k.kind, k) ==>
                store[k] == old(store)[k]
      ensures ok ==> Equipped(During(Injecting(l)), l, old(store), store, namespace)
      ensures CalmSince(old(tick), old(lists)) && !lumigos.ListFailed? ==>
                (ok <==> !Blocked(Injecting(l), old(store), namespace))
    {
      ok := RunPass(Injecting(l), namespace);
      forall k: Key | InPass(Injecting(l), old(store), namespace, k.kind, k)
        ensures !During(Injecting(l)).Breaks(old(store)[k])
      {
        InjectionSettlesWorkload(cfg, lumigos, l, old(store)[k]);
      }
      forall k | ok && k in store && k.namespace == namespace && Reachable(l, old(store)[k])
        ensures Carries(Prevailing(cfg, lumigos, l, old(store)[k]), store[k].spec)
      {
        assert InPass(Injecting(l), old(store), namespace, k.kind, k);
        InjectionSettlesWorkload(cfg, lumigos, l, old(store)[k]);
      }
    }
  }
}
