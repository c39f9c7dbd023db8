/** Whole runs of the Lumigo objects of a cluster: creations, deletions, edits and reconciles,
    where each reconcile may have listed the namespace at any earlier moment. */
module LumigoRuns {
  import opened Sequences
  import opened Conditions
  import opened Reconciler
  import ResourcePasses

  datatype State = State(lumigos: map<nat, Lumigo>, nextUid: nat, lastCreated: int)

  const INITIAL := State(map[], 0, 0)

  /** A reconcile writes its own object only while nobody else has (the API server refuses a
      stale version), so fetching and writing it is one event; its listing comes from
      `listedAt`, an earlier state in which the object existed. */
  datatype Event =
    | Create(namespace: string, name: string, created: int, foreignFinalizers: bool, spec: LumigoSpec)
    | RequestDeletion(uid: nat)
    | DropForeignFinalizers(uid: nat)
    | EditSpec(uid: nat, spec: LumigoSpec)
    | Reconcile(uid: nat, answers: Answers, listedAt: nat, statusLands: bool)

  /** The API server deletes an object on its way out once nothing holds on to it. */
  function Stored(s: State, l: Lumigo): State {
    if l.deleting && !l.finalizer && !l.foreignFinalizers then s.(lumigos := s.lumigos - {l.uid})
    else s.(lumigos := s.lumigos[l.uid := l])
  }

  function AfterReconcile(l: Lumigo, e: Event): Lumigo
    requires e.Reconcile?
  {
    var out := Reconciled(l, e.answers);
    l.(finalizer := out.finalizer,
       conditions := if out.status.Some? && e.statusLands then out.status.value else l.conditions)
  }

  function Next(s: State, e: Event): State {
    match e
    case Create(ns, name, created, foreign, spec) =>
      State(s.lumigos[s.nextUid := Lumigo(s.nextUid, ns, name, created, false, false, foreign, spec, [])],
            s.nextUid + 1, created)
    case RequestDeletion(u) =>
      if u in s.lumigos then Stored(s, s.lumigos[u].(deleting := true)) else s
    case DropForeignFinalizers(u) =>
      if u in s.lumigos then Stored(s, s.lumigos[u].(foreignFinalizers := false)) else s
    case EditSpec(u, spec) =>
      if u in s.lumigos then Stored(s, s.lumigos[u].(spec := spec)) else s
    case Reconcile(u, _, _, _) =>
      if u in s.lumigos then Stored(s, AfterReconcile(s.lumigos[u], e)) else s
  }

  ghost predicate IsListing(s: State, namespace: string, ls: seq<Lumigo>) {
    && (forall l :: l in ls ==> l.uid in s.lumigos && s.lumigos[l.uid] == l && l.namespace == namespace)
    && (forall u :: u in s.lumigos && s.lumigos[u].namespace == namespace ==> s.lumigos[u] in ls)
  }

  /** What the API server and the clock allow next. The clock may stand still between
      creations; with `strict`, a new object at least never shares its creation time with
      another one that exists in its namespace. */
  ghost predicate Allowed(hist: seq<State>, e: Event, strict: bool)
    requires hist != []
  {
    var s := hist[|hist| - 1];
    match e
    case Create(ns, name, created, _, _) =>
      && created >= s.lastCreated
      && forall u :: u in s.lumigos && s.lumigos[u].namespace == ns ==>
          s.lumigos[u].name != name && (strict ==> s.lumigos[u].created != created)
    case Reconcile(u, a, at, _) =>
      && Coherent(a) && at < |hist| && u in s.lumigos && u in hist[at].lumigos
      && (a.listed.Some? ==> IsListing(hist[at], s.lumigos[u].namespace, a.listed.value))
    case _ => true
  }

  ghost predicate IsStep(hist: seq<State>, s': State, strict: bool)
    requires hist != []
  {
    exists e :: Allowed(hist, e, strict) && s' == Next(hist[|hist| - 1], e)
  }

  ghost predicate IsRun(hist: seq<State>, strict: bool) {
    if |hist| <= 1 then hist == [INITIAL]
    else IsRun(hist[..|hist| - 1], strict) && IsStep(hist[..|hist| - 1], hist[|hist| - 1], strict)
  }

  // ---------------------------------------------------------------- invariants of a state

  ghost predicate WellFormed(s: State) {
    && (forall u :: u in s.lumigos ==> s.lumigos[u].uid == u && u < s.nextUid && s.lumigos[u].created <= s.lastCreated)
    && (forall u :: u in s.lumigos ==> Settled(s.lumigos[u].conditions))
    && (forall u, v :: u in s.lumigos && v in s.lumigos && u != v && s.lumigos[u].namespace == s.lumigos[v].namespace
          ==> s.lumigos[u].name != s.lumigos[v].name)
  }

  ghost predicate CreationTimesDiffer(s: State) {
    forall u, v :: u in s.lumigos && v in s.lumigos && u != v && s.lumigos[u].namespace == s.lumigos[v].namespace
                   ==> s.lumigos[u].created != s.lumigos[v].created
  }

  /** An active Lumigo is the oldest of its namespace. */
  ghost predicate ActiveIsOldest(s: State) {
    forall u, v :: u in s.lumigos && v in s.lumigos && u != v && IsActive(s.lumigos[u].conditions)
                   && s.lumigos[u].namespace == s.lumigos[v].namespace
                   ==> s.lumigos[u].created < s.lumigos[v].created
  }

  ghost predicate AtMostOneActive(s: State) {
    forall u, v :: u in s.lumigos && v in s.lumigos && u != v && s.lumigos[u].namespace == s.lumigos[v].namespace
                   ==> !(IsActive(s.lumigos[u].conditions) && IsActive(s.lumigos[v].conditions))
  }

  ghost predicate SameIdentity(l: Lumigo, k: Lumigo) {
    l.uid == k.uid && l.namespace == k.namespace && l.name == k.name && l.created == k.created
  }

  /** From an earlier state to a later one, objects keep their identity and their conditions,
      and whatever is new is not older than anything that had been created. */
  ghost predicate Evolves(s: State, s': State) {
    && s.nextUid <= s'.nextUid && s.lastCreated <= s'.lastCreated
    && (forall u :: u in s'.lumigos && u in s.lumigos ==> SameIdentity(s.lumigos[u], s'.lumigos[u]))
    && (forall u :: u in s'.lumigos && u !in s.lumigos ==> u >= s.nextUid && s'.lumigos[u].created >= s.lastCreated)
    && (forall u, t :: u in s'.lumigos && u in s.lumigos && HasCondition(s.lumigos[u].conditions, t) ==>
        HasCondition(s'.lumigos[u].conditions, t))
  }

  ghost predicate GoodStep(s: State, s': State, strict: bool) {
    && WellFormed(s') && Evolves(s, s')
    && (strict && CreationTimesDiffer(s) ==> CreationTimesDiffer(s'))
  }

  lemma StoredIsGood(s: State, l: Lumigo, strict: bool)
    requires WellFormed(s) && l.uid in s.lumigos && SameIdentity(s.lumigos[l.uid], l) && Settled(l.conditions)
    requires forall t :: HasCondition(s.lumigos[l.uid].conditions, t) ==> HasCondition(l.conditions, t)
    ensures GoodStep(s, Stored(s, l), strict)
  {
    StoredIsWellFormed(s, l);
    assert Evolves(s, Stored(s, l));
  }

  lemma StoredIsWellFormed(s: State, l: Lumigo)
    requires WellFormed(s) && l.uid in s.lumigos && SameIdentity(s.lumigos[l.uid], l) && Settled(l.conditions)
    ensures WellFormed(Stored(s, l)) && (CreationTimesDiffer(s) ==> CreationTimesDiffer(Stored(s, l)))
  {}

  lemma CreateIsGood(s: State, l: Lumigo, strict: bool)
    requires WellFormed(s) && l.uid == s.nextUid && l.conditions == []
    requires l.created >= s.lastCreated
    requires forall u :: u in s.lumigos && s.lumigos[u].namespace == l.namespace ==>
              s.lumigos[u].name != l.name && (strict ==> s.lumigos[u].created != l.created)
    ensures GoodStep(s, State(s.lumigos[s.nextUid := l], s.nextUid + 1, l.created), strict)
  {}

  lemma StepEvolves(hist: seq<State>, e: Event, strict: bool)
    requires hist != [] && Allowed(hist, e, strict) && WellFormed(hist[|hist| - 1])
    ensures GoodStep(hist[|hist| - 1], Next(hist[|hist| - 1], e), strict)
  {
    var s := hist[|hist| - 1];
    match e
    case Create(ns, name, created, foreign, spec) =>
      CreateIsGood(s, Lumigo(s.nextUid, ns, name, created, false, false, foreign, spec, []), strict);
    case RequestDeletion(u) =>
      if u in s.lumigos { StoredIsGood(s, s.lumigos[u].(deleting := true), strict); }
    case DropForeignFinalizers(u) =>
      if u in s.lumigos { StoredIsGood(s, s.lumigos[u].(foreignFinalizers := false), strict); }
    case EditSpec(u, spec) =>
      if u in s.lumigos { StoredIsGood(s, s.lumigos[u].(spec := spec), strict); }
    case Reconcile(u, a, _, _) =>
      if Reconciled(s.lumigos[u], a).status.Some? {
        ReconcilePersists(s.lumigos[u], a);
      }
      StoredIsGood(s, AfterReconcile(s.lumigos[u], e), strict);
  }

  lemma AnyStepEvolves(hist: seq<State>, s': State, strict: bool)
    requires hist != [] && WellFormed(hist[|hist| - 1]) && IsStep(hist, s', strict)
    ensures GoodStep(hist[|hist| - 1], s', strict)
  {
    var e :| Allowed(hist, e, strict) && s' == Next(hist[|hist| - 1], e);
    StepEvolves(hist, e, strict);
  }

  /** Only a reconcile turns an object active or gives it its Active condition, and then it
      is active. */
  lemma StepActivates(hist: seq<State>, e: Event, strict: bool, u: nat)
    requires hist != [] && Allowed(hist, e, strict) && WellFormed(hist[|hist| - 1])
    requires var s, s' := hist[|hist| - 1], Next(hist[|hist| - 1], e);
             && u in s'.lumigos && HasCondition(s'.lumigos[u].conditions, Active)
             && (u in s.lumigos ==> !HasCondition(s.lumigos[u].conditions, Active) ||
                                    (IsActive(s'.lumigos[u].conditions) && !IsActive(s.lumigos[u].conditions)))
    ensures e.Reconcile? && e.uid == u
    ensures Activates(hist[|hist| - 1].lumigos[u], e.answers)
    ensures IsActive(Next(hist[|hist| - 1], e).lumigos[u].conditions)
  {
    var s := hist[|hist| - 1];
    if e.Reconcile? && Reconciled(s.lumigos[e.uid], e.answers).status.Some? {
      ReconcilePersists(s.lumigos[e.uid], e.answers);
    }
  }

  /** The first appearance of an Active condition is an activation. */
  lemma ActiveAppearsActive(hist: seq<State>, s': State, strict: bool, u: nat)
    requires hist != [] && WellFormed(hist[|hist| - 1]) && IsStep(hist, s', strict)
    requires u in s'.lumigos && HasCondition(s'.lumigos[u].conditions, Active)
    requires u in hist[|hist| - 1].lumigos ==> !HasCondition(hist[|hist| - 1].lumigos[u].conditions, Active)
    ensures IsActive(s'.lumigos[u].conditions)
  {
    var e :| Allowed(hist, e, strict) && s' == Next(hist[|hist| - 1], e);
    StepActivates(hist, e, strict, u);
  }

  lemma EvolvesReflexive(s: State)
    requires WellFormed(s)
    ensures Evolves(s, s)
  {}

  lemma EvolvesTransitive(s: State, s': State, s'': State)
    requires WellFormed(s) && Evolves(s, s') && Evolves(s', s'')
    ensures Evolves(s, s'')
  {}

  lemma {:induction false} RunEvolves(hist: seq<State>, strict: bool, i: nat)
    requires IsRun(hist, strict) && i < |hist|
    ensures WellFormed(hist[i]) && WellFormed(hist[|hist| - 1]) && Evolves(hist[i], hist[|hist| - 1])
    ensures strict ==> CreationTimesDiffer(hist[|hist| - 1])
    decreases |hist|
  {
    if |hist| > 1 {
      var p, last := hist[..|hist| - 1], hist[|hist| - 1];
      var j := if i < |p| then i else |p| - 1;
      RunEvolves(p, strict, j);
      AnyStepEvolves(p, last, strict);
      if i < |p| {
        assert hist[i] == p[j];
        EvolvesTransitive(p[j], p[|p| - 1], last);
      } else {
        EvolvesReflexive(last);
      }
    }
  }

  // ---------------------------------------------------------------- at most one is active

  /** Being first in a sorted listing means being no younger than anything listed. */
  lemma FirstIsOldest(l: Lumigo, a: Answers, k: Lumigo)
    requires Coherent(a) && a.listed.Some? && Elected(l, a) && k in a.listed.value && k.name != l.name
    ensures a.sorted != [] && a.sorted[0] in a.listed.value && a.sorted[0].uid == l.uid
              && a.sorted[0].created <= k.created
  {
    var j :| 0 <= j < |a.listed.value| && a.listed.value[j] == k;
    assert OthersListed(l, a);
    assert k in multiset(a.sorted);
    assert k in a.sorted;
    assert a.sorted[0] in multiset(a.listed.value);
  }

  /** The winner of an election over an old listing is still older than everything else. */
  lemma ElectedIsOldest(hist: seq<State>, e: Event, v: nat)
    requires IsRun(hist, true) && e.Reconcile? && Allowed(hist, e, true)
    requires e.answers.listed.Some? && Elected(hist[|hist| - 1].lumigos[e.uid], e.answers)
    requires v in hist[|hist| - 1].lumigos && v != e.uid
    requires hist[|hist| - 1].lumigos[v].namespace == hist[|hist| - 1].lumigos[e.uid].namespace
    ensures hist[|hist| - 1].lumigos[e.uid].created < hist[|hist| - 1].lumigos[v].created
  {
    RunEvolves(hist, true, e.listedAt);
    OldListingSuffices(hist[e.listedAt], hist[|hist| - 1], e.uid, v, e.answers);
  }

  lemma OldListingSuffices(past: State, s: State, u: nat, v: nat, a: Answers)
    requires WellFormed(past) && WellFormed(s) && Evolves(past, s) && CreationTimesDiffer(s)
    requires u in s.lumigos && v in s.lumigos && u != v && u in past.lumigos
              && s.lumigos[u].namespace == s.lumigos[v].namespace
    requires Coherent(a) && a.listed.Some? && Elected(s.lumigos[u], a)
              && IsListing(past, s.lumigos[u].namespace, a.listed.value)
    ensures s.lumigos[u].created < s.lumigos[v].created
  {
    if v in past.lumigos {
      assert SameIdentity(past.lumigos[v], s.lumigos[v]) && SameIdentity(past.lumigos[u], s.lumigos[u]);
      FirstIsOldest(s.lumigos[u], a, past.lumigos[v]);
      assert a.sorted[0] == past.lumigos[u];
    }
  }

  lemma StepKeepsActiveOldest(hist: seq<State>, e: Event)
    requires IsRun(hist, true) && Allowed(hist, e, true) && ActiveIsOldest(hist[|hist| - 1])
    ensures ActiveIsOldest(Next(hist[|hist| - 1], e))
  {
    var s' := Next(hist[|hist| - 1], e);
    RunEvolves(hist, true, 0);
    StepEvolves(hist, e, true);
    forall u, v | u in s'.lumigos && v in s'.lumigos && u != v && IsActive(s'.lumigos[u].conditions)
                  && s'.lumigos[u].namespace == s'.lumigos[v].namespace
      ensures s'.lumigos[u].created < s'.lumigos[v].created
    {
      ActiveStaysOldest(hist, e, u, v);
    }
  }

  lemma ActiveStaysOldest(hist: seq<State>, e: Event, u: nat, v: nat)
    requires IsRun(hist, true) && Allowed(hist, e, true) && ActiveIsOldest(hist[|hist| - 1])
    requires WellFormed(hist[|hist| - 1]) && GoodStep(hist[|hist| - 1], Next(hist[|hist| - 1], e), true)
    requires CreationTimesDiffer(hist[|hist| - 1])
    requires var s' := Next(hist[|hist| - 1], e);
             && u in s'.lumigos && v in s'.lumigos && u != v && IsActive(s'.lumigos[u].conditions)
             && s'.lumigos[u].namespace == s'.lumigos[v].namespace
    ensures Next(hist[|hist| - 1], e).lumigos[u].created < Next(hist[|hist| - 1], e).lumigos[v].created
  {
    var s := hist[|hist| - 1];
    if u !in s.lumigos || !IsActive(s.lumigos[u].conditions) {
      StepActivates(hist, e, true, u);
      if v in s.lumigos { ElectedIsOldest(hist, e, v); }
    }
  }

  /** With creation times that differ within a namespace, no reachable state has two active Lumigos in one
      namespace: creations, errors, stale listings, deletions and takeovers included. */
  lemma {:induction false} SingleActiveOverRuns(hist: seq<State>)
    requires IsRun(hist, true)
    ensures ActiveIsOldest(hist[|hist| - 1])
    ensures AtMostOneActive(hist[|hist| - 1])
  {
    if |hist| > 1 {
      var p := hist[..|hist| - 1];
      SingleActiveOverRuns(p);
      var e :| Allowed(p, e, true) && hist[|hist| - 1] == Next(p[|p| - 1], e);
      StepKeepsActiveOldest(p, e);
    }
  }

  // ---------------------------------------------------------------- the activation latch

  /** Conditions are settled in every reachable state and never disappear; the Active condition
      exists only on objects that were active at some earlier point of the run. */
  lemma {:induction false} ActivationLatch(hist: seq<State>, strict: bool, u: nat)
    requires IsRun(hist, strict) && u in hist[|hist| - 1].lumigos
    ensures Settled(hist[|hist| - 1].lumigos[u].conditions)
    ensures HasCondition(hist[|hist| - 1].lumigos[u].conditions, Active)
            ==> exists j :: 0 <= j < |hist| && u in hist[j].lumigos && IsActive(hist[j].lumigos[u].conditions)
  {
    RunEvolves(hist, strict, 0);
    if |hist| > 1 && HasCondition(hist[|hist| - 1].lumigos[u].conditions, Active) {
      var p := hist[..|hist| - 1];
      if u in p[|p| - 1].lumigos && HasCondition(p[|p| - 1].lumigos[u].conditions, Active) {
        ActivationLatch(p, strict, u);
        var j :| 0 <= j < |p| && u in p[j].lumigos && IsActive(p[j].lumigos[u].conditions);
        assert hist[j] == p[j];
      } else {
        RunEvolves(p, strict, 0);
        ActiveAppearsActive(p, hist[|hist| - 1], strict, u);
      }
    }
  }

  /** Once an activation has been persisted, no later reconcile of that object runs the initial
      injection pass again. */
  lemma InjectionRunsOnce(hist: seq<State>, strict: bool, j: nat, u: nat, a: Answers)
    requires IsRun(hist, strict) && j < |hist| && u in hist[j].lumigos && u in hist[|hist| - 1].lumigos
    requires HasCondition(hist[j].lumigos[u].conditions, Active)
    ensures !Reconciled(hist[|hist| - 1].lumigos[u], a).injected
  {
    RunEvolves(hist, strict, j);
    InjectsOnlyAtFirst(hist[|hist| - 1].lumigos[u], a);
  }

  // ---------------------------------------------------------------- deletion is guarded

  /** Without the operator's finalizer a Lumigo is inactive or on its way out, and on its way
      out only because a foreign finalizer holds it. */
  ghost predicate Guarded(l: Lumigo) {
    !l.finalizer ==> (IsActive(l.conditions) ==> l.deleting) && (l.deleting ==> l.foreignFinalizers)
  }

  ghost predicate AllGuarded(s: State) { forall u :: u in s.lumigos ==> Guarded(s.lumigos[u]) }

  lemma StepKeepsGuard(s: State, e: Event)
    requires WellFormed(s) && AllGuarded(s)
    ensures AllGuarded(Next(s, e))
  {
    if e.Reconcile? && e.uid in s.lumigos {
      FinalizerGuardsRemoval(s.lumigos[e.uid], e.answers);
    }
  }

  /** In every reachable state: an active Lumigo that nobody has asked to delete holds the
      operator's finalizer, and one that lacks it is active only while its deletion hangs on a
      foreign finalizer. */
  lemma {:induction false} ActiveIsGuardedOverRuns(hist: seq<State>, strict: bool)
    requires IsRun(hist, strict)
    ensures AllGuarded(hist[|hist| - 1])
    ensures forall l :: l in hist[|hist| - 1].lumigos.Values ==>
              && (l.deleting && !l.finalizer ==> l.foreignFinalizers)
              && (IsActive(l.conditions) && !l.finalizer ==> l.deleting && l.foreignFinalizers)
  {
    if |hist| > 1 {
      var p := hist[..|hist| - 1];
      ActiveIsGuardedOverRuns(p, strict);
      RunEvolves(p, strict, 0);
      var e :| Allowed(p, e, strict) && hist[|hist| - 1] == Next(p[|p| - 1], e);
      StepKeepsGuard(p[|p| - 1], e);
    }
  }

  /** An active Lumigo leaves a reachable state in exactly two ways: a reconcile releases the
      finalizer, after the removal pass that is due; or somebody drops the foreign finalizer of
      a Lumigo without ours, and then no pass runs at all. */
  lemma ActiveVanishes(hist: seq<State>, strict: bool, e: Event, u: nat)
    requires IsRun(hist, strict) && Allowed(hist, e, strict)
    requires u in hist[|hist| - 1].lumigos && IsActive(hist[|hist| - 1].lumigos[u].conditions)
    ensures var l := hist[|hist| - 1].lumigos[u];
            var released := e.Reconcile? && e.uid == u && l.finalizer && !Reconciled(l, e.answers).finalizer;
            && (u !in Next(hist[|hist| - 1], e).lumigos <==>
                  (released && !l.foreignFinalizers) || (e == DropForeignFinalizers(u) && !l.finalizer))
            && (released && OwesRemoval(l) ==> Reconciled(l, e.answers).removed && !e.answers.removalFails)
  {
    RunEvolves(hist, strict, 0);
    ActiveIsGuardedOverRuns(hist, strict);
    if e.Reconcile? {
      FinalizerGuardsRemoval(hist[|hist| - 1].lumigos[e.uid], e.answers);
    }
  }

  /** A Lumigo on its way out comes back to life in a reachable state exactly when a complete
      reconcile is persisted, and that takes a foreign finalizer to hold it. */
  lemma DeletingBecomesActive(hist: seq<State>, strict: bool, e: Event)
    requires IsRun(hist, strict) && Allowed(hist, e, strict) && e.Reconcile?
    requires var l := hist[|hist| - 1].lumigos[e.uid]; l.deleting && !IsActive(l.conditions)
    ensures var l, s' := hist[|hist| - 1].lumigos[e.uid], Next(hist[|hist| - 1], e);
            && (e.uid in s'.lumigos && IsActive(s'.lumigos[e.uid].conditions) <==>
                  e.statusLands && Activates(l, e.answers))
            && (Activates(l, e.answers) ==> !l.finalizer && l.foreignFinalizers)
  {
    var l := hist[|hist| - 1].lumigos[e.uid];
    RunEvolves(hist, strict, 0);
    ActiveIsGuardedOverRuns(hist, strict);
    if Reconciled(l, e.answers).status.Some? {
      ReconcilePersists(l, e.answers);
    }
  }

  lemma RunExtends(hist: seq<State>, e: Event, strict: bool) returns (longer: seq<State>)
    requires IsRun(hist, strict) && hist != [] && Allowed(hist, e, strict)
    ensures longer == hist + [Next(hist[|hist| - 1], e)] && IsRun(longer, strict)
  {
    longer := hist + [Next(hist[|hist| - 1], e)];
    assert longer[..|hist|] == hist;
  }

  function HeldLumigo(): Lumigo {
    Lumigo(0, "ns", "a", 1, false, false, true, EMPTY_SPEC.(secretName := "s"), [])
  }

  /** A reconcile in which everything goes well and the object is alone. */
  function SmoothReconcile(l: Lumigo): Event { Reconcile(l.uid, GoodAnswers([l]), 1, true) }

  lemma SmoothOutcome(l: Lumigo, k: Lumigo)
    requires Settled(l.conditions) && l.name == k.name && l.spec != EMPTY_SPEC
    ensures Coherent(SmoothReconcile(k).answers)
    ensures var l' := AfterReconcile(l, SmoothReconcile(k));
            && Settled(l'.conditions) && l' == l.(finalizer := !l.deleting, conditions := l'.conditions)
            && (IsActive(l'.conditions) <==> !(l.deleting && l.finalizer))
  {
    ReconcilePersists(l, SmoothReconcile(k).answers);
  }

  lemma HeldReconciles(hist: seq<State>, l: Lumigo) returns (longer: seq<State>, l': Lumigo)
    requires |hist| >= 2 && IsRun(hist, true) && hist[1].lumigos == map[0 := HeldLumigo()]
    requires hist[|hist| - 1].lumigos == map[0 := l] && SameIdentity(HeldLumigo(), l) && l.foreignFinalizers
    requires Settled(l.conditions) && l.spec != EMPTY_SPEC
    ensures IsRun(longer, true) && |longer| == |hist| + 1 && longer[..|hist|] == hist
    ensures longer[|hist|].lumigos == map[0 := l']
    ensures Settled(l'.conditions) && l' == l.(finalizer := !l.deleting, conditions := l'.conditions)
    ensures IsActive(l'.conditions) <==> !(l.deleting && l.finalizer)
  {
    var e := SmoothReconcile(HeldLumigo());
    SmoothOutcome(l, HeldLumigo());
    assert IsListing(hist[1], "ns", [HeldLumigo()]);
    longer := RunExtends(hist, e, true);
    l' := AfterReconcile(l, e);
  }

  lemma HeldUntilDeletion() returns (hist: seq<State>, l: Lumigo)
    ensures IsRun(hist, true) && |hist| == 4 && hist[1].lumigos == map[0 := HeldLumigo()]
    ensures hist[3].lumigos == map[0 := l] && Settled(l.conditions)
    ensures l == HeldLumigo().(deleting := true, finalizer := true, conditions := l.conditions)
  {
    l := HeldLumigo();
    HeldSpec();
    hist := RunExtends([INITIAL], Create("ns", "a", 1, true, l.spec), true);
    assert hist[1].lumigos == map[0 := l];
    hist, l := HeldReconciles(hist, l);
    hist := RunExtends(hist, RequestDeletion(0), true);
    l := l.(deleting := true);
    assert hist[3].lumigos == map[0 := l];
  }

  lemma HeldSpec()
    ensures HeldLumigo().spec != EMPTY_SPEC
  {
    assert HeldLumigo().spec.secretName == "s";
  }

  /** The whole story in one run: a Lumigo is created with a foreign finalizer, becomes active,
      is deleted, goes through its deletion pass, becomes active again while it is being
      deleted, and vanishes active when the foreign finalizer is dropped. */
  lemma HeldDeletionReactivates() returns (hist: seq<State>)
    ensures IsRun(hist, true) && |hist| == 7
    ensures 0 in hist[4].lumigos && hist[4].lumigos[0].deleting && !IsActive(hist[4].lumigos[0].conditions)
    ensures 0 in hist[5].lumigos &&
            var l := hist[5].lumigos[0];
            IsActive(l.conditions) && OwesRemoval(l) && l.deleting && !l.finalizer
    ensures hist[6] == Next(hist[5], DropForeignFinalizers(0)) && 0 !in hist[6].lumigos
  {
    var l;
    hist, l := HeldUntilDeletion();
    HeldSpec();
    hist, l := HeldReconciles(hist, l);
    hist, l := HeldReconciles(hist, l);
    hist := RunExtends(hist, DropForeignFinalizers(0), true);
  }

  // ---------------------------------------------------------------- why the clock matters

  function TiedLumigo(uid: nat, name: string): Lumigo {
    Lumigo(uid, "ns", name, 1, false, false, false, EMPTY_SPEC.(secretName := name), [])
  }

  function GoodAnswers(ls: seq<Lumigo>): Answers {
    Answers(1, Some("uid"), ResourcePasses.Answered, false, Some(ls), ls, Some("token"), false)
  }

  lemma TiedReconcileActivates(l: Lumigo, other: Lumigo, e: Event)
    requires l.name != "" && l == TiedLumigo(l.uid, l.name) && other == TiedLumigo(other.uid, other.name)
    requires e == Reconcile(l.uid, GoodAnswers([l, other]), 2, true)
    ensures Coherent(e.answers) && IsActive(AfterReconcile(l, e).conditions)
    ensures !AfterReconcile(l, e).deleting && AfterReconcile(l, e).namespace == "ns"
  {
    assert Settled(l.conditions);
    assert l.spec != EMPTY_SPEC;
    assert Activates(l, e.answers);
    ReconcilePersists(l, e.answers);
  }

  lemma TiedListing(s: State, ls: seq<Lumigo>)
    requires s.lumigos == map[0 := TiedLumigo(0, "a"), 1 := TiedLumigo(1, "b")]
    requires ls == [TiedLumigo(0, "a"), TiedLumigo(1, "b")] || ls == [TiedLumigo(1, "b"), TiedLumigo(0, "a")]
    ensures IsListing(s, "ns", ls)
  {
    assert ls[0] in ls && ls[1] in ls;
  }

  lemma TiedStep(hist: seq<State>, l: Lumigo, other: Lumigo, e: Event) returns (longer: seq<State>)
    requires |hist| >= 3 && IsRun(hist, false) && l.name != ""
              && e == Reconcile(l.uid, GoodAnswers([l, other]), 2, true)
    requires l == TiedLumigo(l.uid, l.name) && other == TiedLumigo(other.uid, other.name)
    requires l.uid in hist[|hist| - 1].lumigos && hist[|hist| - 1].lumigos[l.uid] == l && l.uid in hist[2].lumigos
    requires IsListing(hist[2], "ns", [l, other])
    ensures IsRun(longer, false)
    ensures longer == hist + [hist[|hist| - 1].(lumigos := hist[|hist| - 1].lumigos[l.uid := AfterReconcile(l, e)])]
  {
    TiedReconcileActivates(l, other, e);
    assert Allowed(hist, e, false);
    longer := RunExtends(hist, e, false);
  }

  lemma TiedCreate(hist: seq<State>, l: Lumigo) returns (longer: seq<State>)
    requires hist != [] && IsRun(hist, false)
    requires l == TiedLumigo(l.uid, l.name) && hist[|hist| - 1].lastCreated <= 1 && l.uid == hist[|hist| - 1].nextUid
    requires forall k :: k in hist[|hist| - 1].lumigos.Values ==> k.name != l.name
    ensures longer == hist + [State(hist[|hist| - 1].lumigos[l.uid := l], l.uid + 1, 1)] && IsRun(longer, false)
  {
    var e := Create("ns", l.name, 1, false, l.spec);
    assert Allowed(hist, e, false);
    longer := RunExtends(hist, e, false);
  }

  lemma TiedPair() returns (hist: seq<State>)
    ensures |hist| == 3 && IsRun(hist, false)
    ensures hist[2].lumigos == map[0 := TiedLumigo(0, "a"), 1 := TiedLumigo(1, "b")]
  {
    hist := TiedCreate([INITIAL], TiedLumigo(0, "a"));
    assert hist[1].lumigos == map[0 := TiedLumigo(0, "a")] && "a"[0] != "b"[0];
    hist := TiedCreate(hist, TiedLumigo(1, "b"));
  }

  /** Two Lumigos created within the same tick can both be elected, since the sort that decides
      is free to order them either way: a run that ends with two active ones. */
  lemma TieElectsTwo() returns (hist: seq<State>)
    ensures IsRun(hist, false) && !AtMostOneActive(hist[|hist| - 1])
  {
    var a, b := TiedLumigo(0, "a"), TiedLumigo(1, "b");
    var e3, e4 := Reconcile(0, GoodAnswers([a, b]), 2, true), Reconcile(1, GoodAnswers([b, a]), 2, true);
    hist := TiedPair();
    TiedListing(hist[2], [a, b]);
    TiedListing(hist[2], [b, a]);
    hist := TiedStep(hist, a, b, e3);
    hist := TiedStep(hist, b, a, e4);
    TiedReconcileActivates(a, b, e3);
    TiedReconcileActivates(b, a, e4);
    assert hist[4].lumigos[0] == AfterReconcile(a, e3) && hist[4].lumigos[1] == AfterReconcile(b, e4);
  }

  ghost predicate Ascending<T>(time: T -> int, s: seq<T>) {
    forall i, j :: 0 <= i < j < |s| ==> time(s[i]) <= time(s[j])
  }

  lemma {:induction false} InsertAscending<T>(time: T -> int, x: T, s: seq<T>) returns (r: seq<T>)
    requires Ascending(time, s)
    ensures Ascending(time, r) && multiset(r) == multiset(s) + multiset{x}
  {
    if s == [] || time(x) <= time(s[0]) {
      r := [x] + s;
    } else {
      var rest := InsertAscending(time, x, s[1..]);
      assert s == [s[0]] + s[1..];
      r := PrependAscending(time, s[0], rest, s[1..], x);
    }
  }

  lemma PrependAscending<T>(time: T -> int, first: T, rest: seq<T>, s: seq<T>, x: T) returns (r: seq<T>)
    requires Ascending(time, rest) && multiset(rest) == multiset(s) + multiset{x}
    requires time(first) <= time(x) && forall i :: 0 <= i < |s| ==> time(first) <= time(s[i])
    ensures r == [first] + rest && Ascending(time, r)
  {
    r := [first] + rest;
    forall i | 0 <= i < |rest| ensures time(first) <= time(rest[i]) {
      assert rest[i] in multiset(rest);
      assert rest[i] == x || rest[i] in s;
    }
  }

  lemma {:induction false} SortingExists<T>(time: T -> int, s: seq<T>) returns (r: seq<T>)
    ensures Ascending(time, r) && multiset(r) == multiset(s)
  {
    if s == [] {
      r := [];
    } else {
      r := SortingExists(time, s[1..]);
      assert s == [s[0]] + s[1..];
      r := InsertAscending(time, s[0], r);
    }
  }

  /** Some sorting of `s` by time begins with `x`. */
  ghost predicate CanComeFirst<T(!new)>(time: T -> int, x: T, s: seq<T>) {
    exists r: seq<T> :: |r| > 0 && r[0] == x && multiset(r) == multiset(s) && Ascending(time, r)
  }

  lemma MinimumCanComeFirst<T(!new)>(time: T -> int, x: T, s: seq<T>)
    requires x in s && forall y :: y in s ==> time(x) <= time(y)
    ensures CanComeFirst(time, x, s)
  {
    var i :| 0 <= i < |s| && s[i] == x;
    var rest := s[..i] + s[i + 1..];
    assert s == s[..i] + ([x] + s[i + 1..]);
    assert multiset(s) == multiset(rest) + multiset{x};
    var sorted := SortingExists(time, rest);
    forall j | 0 <= j < |sorted| ensures time(x) <= time(sorted[j]) {
      assert sorted[j] in multiset(sorted);
      assert sorted[j] in rest;
    }
    var r := [x] + sorted;
    assert Ascending(time, r) && multiset(r) == multiset(s) && r[0] == x;
  }

  /** Exactly the minima can come first in a sort that is not stable. */
  lemma FirstIffMinimum<T(!new)>(time: T -> int, x: T, s: seq<T>)
    requires x in s
    ensures CanComeFirst(time, x, s) <==> forall y :: y in s ==> time(x) <= time(y)
  {
    if forall y :: y in s ==> time(x) <= time(y) {
      MinimumCanComeFirst(time, x, s);
    }
    if CanComeFirst(time, x, s) {
      var r: seq<T> :| |r| > 0 && r[0] == x && multiset(r) == multiset(s) && Ascending(time, r);
      forall y | y in s ensures time(x) <= time(y) {
        assert y in multiset(r);
        assert y in r;
      }
    }
  }

  function CreationTime(l: Lumigo): int { l.created }

  /** The election can go to exactly those that nobody predates, so it can go two ways exactly
      when the oldest creation time is shared. */
  lemma ElectionIsAmbiguousOnTie(l: Lumigo, k: Lumigo, listed: seq<Lumigo>)
    requires l in listed && k in listed && l != k && CanComeFirst(CreationTime, l, listed)
    ensures CanComeFirst(CreationTime, k, listed) <==> k.created == l.created
  {
    FirstIffMinimum(CreationTime, l, listed);
    FirstIffMinimum(CreationTime, k, listed);
  }
}
