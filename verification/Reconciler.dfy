/** `Reconcile`: finalizer, election, activation and deletion of Lumigo objects. */
module Reconciler {
  import opened Sequences
  import opened Conditions
  import opened NamespaceConfigs
  import opened InjectorWebhook
  import opened Passes
  import opened ResourcePasses

  datatype LumigoSpec = LumigoSpec(
    secretName: string,
    secretKey: string,
    tracingEnabled: Option<bool>,
    loggingEnabled: Option<bool>,
    injectionEnabled: Option<bool>,
    injectExisting: Option<bool>,
    removeOnDeletion: Option<bool>,
    infrastructureEnabled: Option<bool>,
    kubeEventsEnabled: Option<bool>)

  const EMPTY_SPEC := LumigoSpec("", "", None, None, None, None, None, None, None)

  /** `finalizer` is the operator's own one; `foreignFinalizers` says whether others hold on. */
  datatype Lumigo = Lumigo(
    uid: nat,
    namespace: string,
    name: string,
    created: int,
    deleting: bool,
    finalizer: bool,
    foreignFinalizers: bool,
    spec: LumigoSpec,
    conditions: seq<Condition>)

  predicate IsTruthy(value: Option<bool>) { value != Some(false) }

  // ---------------------------------------------------------------- one reconcile

  /** What the outside world answers during one reconcile. `namespaceUid` is empty for a
      namespace that is gone, and `None` if looking it up failed; `token` is `None` for invalid
      credentials; `sorted` is the listing after `sort.Sort(ByCreationTime(...))`, which is not
      stable. */
  datatype Answers = Answers(
    now: int,
    namespaceUid: Option<string>,
    update: Reply,
    removalFails: bool,
    listed: Option<seq<Lumigo>>,
    sorted: seq<Lumigo>,
    token: Option<string>,
    referencesFail: bool)

  ghost predicate SortedByCreation(ls: seq<Lumigo>) {
    forall i, j :: 0 <= i < j < |ls| ==> ls[i].created <= ls[j].created
  }

  ghost predicate Coherent(a: Answers) {
    a.listed.Some? ==> multiset(a.sorted) == multiset(a.listed.value) && SortedByCreation(a.sorted)
  }

  /** What a reconcile leaves behind: the finalizer that is persisted, the status it asks the
      API server to persist (if it gets that far), the passes it ran, and the request it makes
      to the telemetry proxy's namespace file. */
  datatype Outcome = Outcome(
    finalizer: bool, status: Option<seq<Condition>>, injected: bool, removed: bool, monitoring: Option<Config>)

  const OTHERS_EXIST := "other Lumigo instances in this namespace"
  const BEING_DELETED := "This Lumigo instance is being deleted"
  const READY := "Lumigo is ready"
  const INVALID_TOKEN := "invalid Lumigo token secret reference"

  predicate OthersListed(l: Lumigo, a: Answers)
    requires a.listed.Some?
  {
    exists i :: 0 <= i < |a.listed.value| && a.listed.value[i].name != l.name
  }

  /** The election: alone in the namespace, or first by creation time. */
  predicate Elected(l: Lumigo, a: Answers)
    requires a.listed.Some?
  {
    OthersListed(l, a) ==> |a.sorted| > 0 && a.sorted[0].uid == l.uid
  }

  /** Deleting this Lumigo must take the instrumentation out of its namespace. */
  predicate OwesRemoval(l: Lumigo) {
    IsActive(l.conditions) && IsTruthy(l.spec.injectionEnabled) && IsTruthy(l.spec.removeOnDeletion)
  }

  predicate WantsMonitoring(l: Lumigo) {
    IsTruthy(l.spec.infrastructureEnabled) && IsTruthy(l.spec.kubeEventsEnabled)
  }

  function DeletionOutcome(l: Lumigo, a: Answers): Outcome {
    if OwesRemoval(l) && a.removalFails then Outcome(l.finalizer, None, false, true, None)
    else if !a.update.Answered? then Outcome(l.finalizer && a.update.Refused?, None, false, OwesRemoval(l), None)
    else
      var cs := Apply(l.conditions, ActiveUpdate(a.now, false, BEING_DELETED));
      Outcome(false, Some(ClearError(cs, a.now)), false, OwesRemoval(l), Some(Config("", l.namespace, "")))
  }

  function ElectionOutcome(l: Lumigo, a: Answers): Outcome
    requires a.namespaceUid.Some?
  {
    var nothing := Outcome(l.finalizer, None, false, false, None);
    if a.listed.None? then nothing
    else if !Elected(l, a) then nothing.(status := Some(SetErrorAndActive(l.conditions, a.now, OTHERS_EXIST)))
    else if l.spec == EMPTY_SPEC then nothing
    else if a.token.None? then nothing.(status := Some(SetErrorAndActive(l.conditions, a.now, INVALID_TOKEN)))
    else ActivationOutcome(l, a)
  }

  function ActivationOutcome(l: Lumigo, a: Answers): Outcome
    requires a.namespaceUid.Some? && a.token.Some?
  {
    var injects := !HasCondition(l.conditions, Active) && IsTruthy(l.spec.injectionEnabled)
                   && IsTruthy(l.spec.injectExisting);
    var cs := ClearError(Apply(l.conditions, ActiveUpdate(a.now, true, READY)), a.now);
    Outcome(l.finalizer, if a.referencesFail then None else Some(cs), injects, false,
            Some(if WantsMonitoring(l) then Config(a.token.value, l.namespace, a.namespaceUid.value)
                 else Config("", l.namespace, "")))
  }

  function Reconciled(l: Lumigo, a: Answers): Outcome {
    if a.namespaceUid.None? then Outcome(l.finalizer, None, false, false, None)
    else if l.deleting && l.finalizer then DeletionOutcome(l, a)
    else if !l.deleting && !l.finalizer && !a.update.Answered? then
      Outcome(a.update.Lost?, None, false, false, None)
    else ElectionOutcome(l.(finalizer := !l.deleting), a)
  }

  /** The initial injection, if it ran, has in calm conditions instrumented every unlabelled
      workload of the namespace that it is for, unless a ReplicaSet blocked it; without a pass
      nothing has changed. */
  ghost predicate PassesKeepTo(out: Outcome, c: Context, namespace: string, calm: bool, before: Objects, now: Objects)
    requires c.pass.Injecting?
  {
    && (out.injected && calm && !c.lumigos.ListFailed? && !Blocked(c.pass, before, namespace) ==>
          Equipped(c, c.pass.lumigo, before, now, namespace))
    && (!out.injected && !out.removed ==> now == before)
  }

  /** The Lumigo object that a reconcile has fetched and edits. */
  class LumigoObject {
    const identity: Lumigo
    var finalizer: bool
    const status: LumigoStatus

    function Value(): Lumigo
      reads this, status
    {
      identity.(finalizer := finalizer, conditions := status.conditions)
    }

    /** What the injecting mutator is made from. */
    function View(): (v: LumigoView)
      reads status
      ensures v.injectionEnabled == identity.spec.injectionEnabled && v.tracingEnabled == identity.spec.tracingEnabled
      ensures v.loggingEnabled == identity.spec.loggingEnabled
      ensures v.secretName == identity.spec.secretName && v.secretKey == identity.spec.secretKey
    {
      LumigoView(IsActive(status.conditions), identity.spec.injectionEnabled, identity.spec.tracingEnabled,
                 identity.spec.loggingEnabled, identity.spec.secretName, identity.spec.secretKey)
    }

    constructor (l: Lumigo)
      ensures Value() == l && fresh(status)
    {
      identity, finalizer := l, l.finalizer;
      status := new LumigoStatus(l.conditions);
    }

    /** Returns the persisted finalizer, the status to persist if any, and the passes run;
        `b` is `a` with the fate of the removal pass filled in, if there was one. */
    method Reconcile(a: Answers, api: ApiServer) returns (out: Outcome, ghost b: Answers)
      requires Coherent(a) && api.Valid()
      modifies this, status, api
      ensures b == a.(removalFails := b.removalFails) && out == Reconciled(old(Value()), b)
      ensures out.status.Some? ==> out.status.value == status.conditions
      ensures api.Valid()
      ensures PassesKeepTo(out, api.During(Injecting(old(View()))), identity.namespace,
                           api.CalmSince(old(api.tick), old(api.lists)), old(api.store), api.store)
      ensures old(finalizer) && !out.finalizer && OwesRemoval(old(Value())) ==>
                Cleared(old(api.store), api.store, identity.namespace)
    {
      b := a;
      if a.namespaceUid.None? {
        return Outcome(finalizer, None, false, false, None), b;
      }
      if identity.deleting && finalizer {
        out, b := ReconcileDeletion(a, api);
      } else {
        out := ReconcileLive(a, api);
        FinalizerGuardsRemoval(old(Value()), a);
      }
    }

    /** A Lumigo that is not being deleted first gets the finalizer; one that is, and has lost
        it, falls through. */
    method ReconcileLive(a: Answers, api: ApiServer) returns (out: Outcome)
      requires Coherent(a) && api.Valid() && a.namespaceUid.Some? && !(identity.deleting && finalizer)
      modifies this, status, api
      ensures api.Valid() && out == Reconciled(old(Value()), a)
      ensures out.status.Some? ==> out.status.value == status.conditions
      ensures PassesKeepTo(out, api.During(Injecting(old(View()))), identity.namespace,
                           api.CalmSince(old(api.tick), old(api.lists)), old(api.store), api.store)
    {
      if !identity.deleting && !finalizer {
        if !a.update.Answered? { return Outcome(a.update.Lost?, None, false, false, None); }
        finalizer := true;
      }
      assert Value() == old(Value()).(finalizer := !identity.deleting);
      out := ReconcileElection(a, api);
    }

    /** The finalizer is released only when nothing that the removal pass owes is left; in calm
        conditions, without lost responses or workloads on which a retry panics, it is released
        exactly unless a ReplicaSet blocks that pass. */
    method ReconcileDeletion(a: Answers, api: ApiServer) returns (out: Outcome, ghost b: Answers)
      requires identity.deleting && finalizer && api.Valid()
      modifies this, status, api
      ensures api.Valid() && api.store.Keys == old(api.store).Keys
      ensures b == a.(removalFails := b.removalFails) && out == DeletionOutcome(old(Value()), b)
      ensures out.status.Some? ==> out.status.value == status.conditions
      ensures !out.removed ==> api.store == old(api.store)
      ensures !out.finalizer && OwesRemoval(old(Value())) ==>
                Cleared(old(api.store), api.store, identity.namespace)
      ensures api.CalmSince(old(api.tick), old(api.lists)) && !api.lumigos.ListFailed? && a.update.Answered?
              && (!AnyLost(api.calls, old(api.tick), api.tick)
                  || !AnyBreaks(api.During(Removing), old(api.store), identity.namespace)) ==>
                (out.finalizer <==> OwesRemoval(old(Value())) && Blocked(Removing, old(api.store), identity.namespace))
    {
      b := a.(removalFails := false);
      var removed := false;
      if IsActive(status.conditions) {
        if IsTruthy(identity.spec.injectionEnabled) && IsTruthy(identity.spec.removeOnDeletion) {
          removed := true;
          var ok := api.RemoveLumigoFromResources(identity.namespace);
          if !ok { return Outcome(finalizer, None, false, removed, None), a.(removalFails := true); }
        }
      }
      if !a.update.Answered? { return Outcome(a.update.Refused?, None, false, removed, None), b; }
      finalizer := false;
      status.UpdateLumigoConditions(ActiveUpdate(a.now, false, BEING_DELETED));
      status.ClearErrorCondition(a.now);
      return Outcome(false, Some(status.conditions), false, removed, Some(Config("", identity.namespace, ""))), b;
    }

    method OtherLumigoes(listed: seq<Lumigo>) returns (others: seq<string>)
      ensures others != [] <==> exists i :: 0 <= i < |listed| && listed[i].name != identity.name
    {
      others := [];
      for i := 0 to |listed|
        invariant others != [] <==> exists j :: 0 <= j < i && listed[j].name != identity.name
      {
        if listed[i].name != identity.name {
          others := others + [listed[i].name];
        }
      }
    }

    method ReconcileElection(a: Answers, api: ApiServer) returns (out: Outcome)
      requires Coherent(a) && a.namespaceUid.Some? && api.Valid()
      modifies status, api
      ensures api.Valid() && out == ElectionOutcome(old(Value()), a)
      ensures PassesKeepTo(out, api.During(Injecting(old(View()))), identity.namespace,
                           api.CalmSince(old(api.tick), old(api.lists)), old(api.store), api.store)
      ensures out.status.Some? ==> out.status.value == status.conditions
    {
      var nothing := Outcome(finalizer, None, false, false, None);
      if a.listed.None? { return nothing; }
      var others := OtherLumigoes(a.listed.value);
      if |others| > 0 {
        assert |multiset(a.sorted)| == |multiset(a.listed.value)| > 0;
        if a.sorted[0].uid != identity.uid {
          status.SetErrorAndActiveConditions(a.now, OTHERS_EXIST);
          return nothing.(status := Some(status.conditions));
        }
      }
      if identity.spec == EMPTY_SPEC { return nothing; }
      if a.token.None? {
        status.SetErrorAndActiveConditions(a.now, INVALID_TOKEN);
        return nothing.(status := Some(status.conditions));
      }
      out := ReconcileActivation(a, api);
    }

    method ReconcileActivation(a: Answers, api: ApiServer) returns (out: Outcome)
      requires a.namespaceUid.Some? && a.token.Some? && api.Valid()
      modifies status, api
      ensures api.Valid() && out == ActivationOutcome(old(Value()), a)
      ensures PassesKeepTo(out, api.During(Injecting(old(View()))), identity.namespace,
                           api.CalmSince(old(api.tick), old(api.lists)), old(api.store), api.store)
      ensures out.status.Some? ==> out.status.value == status.conditions
    {
      var justCreated := !HasCondition(status.conditions, Active);
      var injected := false;
      if justCreated {
        injected := IsTruthy(identity.spec.injectionEnabled) && IsTruthy(identity.spec.injectExisting);
        if injected {
          // A failure is logged and the reconcile goes on.
          var ok := api.InjectLumigoIntoResources(View(), identity.namespace);
        }
      }
      var request := Config("", identity.namespace, "");
      if IsTruthy(identity.spec.infrastructureEnabled) && IsTruthy(identity.spec.kubeEventsEnabled) {
        request := Config(a.token.value, identity.namespace, a.namespaceUid.value);
      }
      status.UpdateLumigoConditions(ActiveUpdate(a.now, true, READY));
      status.ClearErrorCondition(a.now);
      if a.referencesFail {
        return Outcome(finalizer, None, injected, false, Some(request));
      }
      return Outcome(finalizer, Some(status.conditions), injected, false, Some(request));
    }
  }

  // ---------------------------------------------------------------- what a reconcile persists

  /** At most one condition per type, and never active and in error at once. */
  ghost predicate Settled(cs: seq<Condition>) {
    DistinctKeys(KindOf, cs) && !(IsActive(cs) && HasError(cs))
  }

  /** The reconcile goes all the way to "Lumigo is ready". */
  ghost predicate Activates(l: Lumigo, a: Answers) {
    && a.namespaceUid.Some?
    && !(l.deleting && l.finalizer) && (!l.deleting && !l.finalizer ==> a.update.Answered?)
    && a.listed.Some? && Elected(l, a) && l.spec != EMPTY_SPEC && a.token.Some? && !a.referencesFail
  }

  /** Every persisted status is settled, keeps all conditions, is active exactly when the
      reconcile went all the way, and gains the Active condition only by being active. */
  lemma ReconcilePersists(l: Lumigo, a: Answers)
    requires Settled(l.conditions) && Reconciled(l, a).status.Some?
    ensures var cs := Reconciled(l, a).status.value;
            && Settled(cs)
            && (forall t :: HasCondition(l.conditions, t) ==> HasCondition(cs, t))
            && (IsActive(cs) <==> Activates(l, a))
            && (HasCondition(cs, Active) <==> HasCondition(l.conditions, Active) || Activates(l, a))
  {
    StatusIsUpdated(l, a);
    UpdatesReflect(l, a);
    TwoUpdates(l.conditions, Updates(l, a).0, Updates(l, a).1);
  }

  /** The two condition updates that a reconcile ends with, if it gets that far. */
  function Updates(l: Lumigo, a: Answers): (Update, Update)
    requires a.listed.Some? || (l.deleting && l.finalizer)
  {
    if l.deleting && l.finalizer then
      (ActiveUpdate(a.now, false, BEING_DELETED), Update(Error, a.now, IsFalse, ""))
    else if !Elected(l, a) then
      (ActiveUpdate(a.now, false, SEE_ERROR), Update(Error, a.now, IsTrue, OTHERS_EXIST))
    else if a.token.None? then
      (ActiveUpdate(a.now, false, SEE_ERROR), Update(Error, a.now, IsTrue, INVALID_TOKEN))
    else
      (ActiveUpdate(a.now, true, READY), Update(Error, a.now, IsFalse, ""))
  }

  lemma StatusIsUpdated(l: Lumigo, a: Answers)
    requires Reconciled(l, a).status.Some?
    ensures a.listed.Some? || (l.deleting && l.finalizer)
    ensures Reconciled(l, a).status.value == Apply(Apply(l.conditions, Updates(l, a).0), Updates(l, a).1)
  {}

  lemma UpdatesReflect(l: Lumigo, a: Answers)
    requires Reconciled(l, a).status.Some? && (a.listed.Some? || (l.deleting && l.finalizer))
    ensures Updates(l, a).0.status == IsTrue <==> Activates(l, a)
    ensures Updates(l, a).1.status == IsTrue <==> Reconciled(l, a).monitoring.None?
    ensures Updates(l, a).0.status == IsTrue ==> Updates(l, a).1.status != IsTrue
  {}

  lemma TwoUpdates(cs: seq<Condition>, u: Update, v: Update)
    requires DistinctKeys(KindOf, cs) && u.kind == Active && v.kind == Error
              && !(u.status == IsTrue && v.status == IsTrue)
    ensures var r := Apply(Apply(cs, u), v);
            && Settled(r)
            && (forall t :: HasCondition(cs, t) ==> HasCondition(r, t))
            && (IsActive(r) <==> u.status == IsTrue)
            && (HasCondition(r, Active) <==> HasCondition(cs, Active) || u.status == IsTrue)
  {
    ApplyEffect(cs, u, Active);
    ApplyEffect(cs, u, Error);
    ApplyEffect(Apply(cs, u), v, Active);
    ApplyEffect(Apply(cs, u), v, Error);
    forall t | HasCondition(cs, t) ensures HasCondition(Apply(Apply(cs, u), v), t) {
      assert t == Active || t == Error;
    }
  }

  /** The finalizer of a Lumigo that owes a removal pass is released only by a reconcile in
      which that pass succeeded; and one that is not being deleted holds the finalizer whenever
      its status is persisted. */
  lemma FinalizerGuardsRemoval(l: Lumigo, a: Answers)
    ensures l.finalizer && !Reconciled(l, a).finalizer ==> l.deleting
    ensures l.finalizer && !Reconciled(l, a).finalizer && OwesRemoval(l) ==>
              Reconciled(l, a).removed && !a.removalFails
    ensures Reconciled(l, a).status.Some? && !l.deleting ==> Reconciled(l, a).finalizer
  {}

  /** The initial injection pass is for objects that never had an Active condition. */
  lemma InjectsOnlyAtFirst(l: Lumigo, a: Answers)
    ensures Reconciled(l, a).injected ==> !HasCondition(l.conditions, Active)
  {}

  /** Exactly when a reconcile runs which pass; a switch that is not set counts as on. The
      initial injection runs even if the status is not persisted in the end. */
  lemma SwitchesDecide(l: Lumigo, a: Answers)
    ensures Reconciled(l, a).removed <==>
              && a.namespaceUid.Some? && l.deleting && l.finalizer && IsActive(l.conditions)
              && l.spec.injectionEnabled != Some(false) && l.spec.removeOnDeletion != Some(false)
    ensures Reconciled(l, a).injected <==>
              && Activates(l, a.(referencesFail := false)) && !HasCondition(l.conditions, Active)
              && l.spec.injectionEnabled != Some(false) && l.spec.injectExisting != Some(false)
  {}

  /** What the persisted conditions say. */
  lemma PersistedConditions(l: Lumigo, a: Answers)
    requires Settled(l.conditions) && Reconciled(l, a).status.Some?
    ensures var cs := Reconciled(l, a).status.value;
            if l.deleting && l.finalizer then
              && Says(cs, Active, IsFalse, a.now, "This Lumigo instance is being deleted")
              && Says(cs, Error, IsFalse, a.now, "")
            else if Activates(l, a) then
              && HasCondition(cs, Active) && Says(cs, Active, IsTrue, a.now, "Lumigo is ready")
              && Says(cs, Error, IsFalse, a.now, "")
            else
              && Says(cs, Active, IsFalse, a.now, "This Lumigo has an error, see the 'Error' condition")
              && HasCondition(cs, Error)
              && Says(cs, Error, IsTrue, a.now, if !Elected(l, a) then "other Lumigo instances in this namespace"
                                                else "invalid Lumigo token secret reference")
  {
    StatusIsUpdated(l, a);
    UpdatesReflect(l, a);
    SaidAfter(l.conditions, Updates(l, a).0, Updates(l, a).1);
  }

  /** The condition, if there is one, has this status and message since this update. */
  predicate Says(cs: seq<Condition>, t: ConditionType, status: ConditionStatus, now: int, message: string) {
    HasCondition(cs, t) ==>
      var c := ConditionByType(cs, t);
      c.status == status && c.lastUpdate == now && c.message == message
  }

  lemma SaidAfter(cs: seq<Condition>, u: Update, v: Update)
    requires DistinctKeys(KindOf, cs) && u.kind == Active && v.kind == Error
    ensures var r := Apply(Apply(cs, u), v);
            && Says(r, Active, u.status, u.now, u.message) && Says(r, Error, v.status, v.now, v.message)
            && (u.status == IsTrue ==> HasCondition(r, Active)) && (v.status == IsTrue ==> HasCondition(r, Error))
  {
    ApplyEffect(cs, u, Active);
    ApplyEffect(cs, u, Error);
    ApplyEffect(Apply(cs, u), v, Active);
    ApplyEffect(Apply(cs, u), v, Error);
  }

  /** After a persisted reconcile the telemetry proxy's map of namespaces, whatever it was, has
      an entry for the Lumigo's namespace exactly if the Lumigo is ready, wants monitoring and
      the namespace still exists; then it holds the Lumigo's token and the namespace's uid. A
      Lumigo in error, and only that, leaves the map alone. */
  lemma MonitoringFollows(l: Lumigo, a: Answers, m: map<string, Config>)
    requires Settled(l.conditions) && Reconciled(l, a).status.Some?
    ensures var out := Reconciled(l, a);
            && (HasError(out.status.value) <==> out.monitoring.None?)
            && (out.monitoring.Some? ==>
                  var m' := Meant(out.monitoring.value, m);
                  && (l.namespace in m' <==>
                        && Activates(l, a) && a.namespaceUid != Some("")
                        && l.spec.infrastructureEnabled != Some(false) && l.spec.kubeEventsEnabled != Some(false))
                  && (l.namespace in m' ==>
                        m'[l.namespace] == Config(a.token.value, l.namespace, a.namespaceUid.value))
                  && m' - {l.namespace} == m - {l.namespace})
  {
    PersistedError(l, a);
    MonitoringRequested(l, a);
    if Reconciled(l, a).monitoring.Some? {
      MeantEffect(Reconciled(l, a).monitoring.value, m);
    }
  }

  lemma MeantEffect(request: Config, m: map<string, Config>)
    ensures var m' := Meant(request, m);
            && (request.name in m' <==> request.uid != "")
            && (request.name in m' ==> m'[request.name] == request)
            && m' - {request.name} == m - {request.name}
  {}

  lemma PersistedError(l: Lumigo, a: Answers)
    requires Settled(l.conditions) && Reconciled(l, a).status.Some?
    ensures HasError(Reconciled(l, a).status.value) <==> Reconciled(l, a).monitoring.None?
  {
    StatusIsUpdated(l, a);
    UpdatesReflect(l, a);
    ErrorIs(l.conditions, Updates(l, a).0, Updates(l, a).1);
  }

  lemma MonitoringRequested(l: Lumigo, a: Answers)
    requires Reconciled(l, a).status.Some?
    ensures Reconciled(l, a).monitoring.Some? <==> (l.deleting && l.finalizer) || Activates(l, a)
  {}

  lemma ErrorIs(cs: seq<Condition>, u: Update, v: Update)
    requires DistinctKeys(KindOf, cs) && v.kind == Error
    ensures HasError(Apply(Apply(cs, u), v)) <==> v.status == IsTrue
  {
    ApplyEffect(cs, u, Error);
    ApplyEffect(Apply(cs, u), v, Error);
  }
}
