/** The two passes that the controller makes over the workloads of a namespace: injecting when a
    Lumigo is new, removing when it is deleted. Both list, fetch, mutate a copy and update. */
module Passes {
  import opened Sequences
  import opened Workloads
  import opened StoredForm
  import opened InjectorWebhook

  datatype Pass = Removing | Injecting(lumigo: LumigoView)

  /** The removal pass lists labelled workloads, the injection pass those without the label;
      both leave Jobs alone. */
  predicate Lists(pass: Pass, w: Workload) {
    && !w.kind.Job?
    && match pass
       case Removing => Selected(w)
       case Injecting(_) => !(w.labels.Some? && AUTO_TRACE in w.labels.value)
  }

  /** The skip marker is written with a plain map assignment, which panics on a nil map. */
  function MarkedForSkip(w: Workload): Option<Workload> {
    if w.labels.None? then None else Some(w.(labels := WithLabel(w.labels, SKIP_NEXT_INJECTOR)))
  }

  /** What the retried closure does with the workload that it has fetched. */
  datatype Attempt = Fails | NothingToDo | Panics | Sends(workload: Workload)

  function Try(cfg: OperatorConfig, pass: Pass, w: Workload): Attempt {
    match pass
    case Removing =>
      var r := RemoveFrom(w);
      if r.Failed? then Fails
      else if !r.occurred then NothingToDo
      else if MarkedForSkip(r.workload).None? then Panics
      else Sends(MarkedForSkip(r.workload).value)
    case Injecting(l) =>
      var r := InjectInto(MutatorFromSpec(cfg, l), w);
      if r.Failed? then Fails else if !r.occurred then NothingToDo else Sends(r.workload)
  }

  /** What a workload becomes when the pass gets through to it. */
  function Final(cfg: OperatorConfig, lumigos: Listing, pass: Pass, w: Workload): Workload {
    var t := Try(cfg, pass, w);
    if !t.Sends? then w
    else
      match Admit(cfg, lumigos, t.workload)
      case Denied => w
      case Admitted(w') => w'
  }

  /** The pass can succeed on this workload. */
  predicate Processed(cfg: OperatorConfig, lumigos: Listing, pass: Pass, w: Workload) {
    var t := Try(cfg, pass, w);
    t.NothingToDo? || (t.Sends? && Admit(cfg, lumigos, t.workload).Admitted?)
  }

  /** A second attempt, after one whose update landed, would panic. */
  predicate Fragile(cfg: OperatorConfig, lumigos: Listing, pass: Pass, w: Workload) {
    Try(cfg, pass, Final(cfg, lumigos, pass, w)).Panics?
  }

  /** A second attempt does no harm unless it panics: it finds nothing to do, or its update
      leaves the workload as it is. */
  predicate Settles(cfg: OperatorConfig, lumigos: Listing, pass: Pass, w: Workload) {
    var w' := Final(cfg, lumigos, pass, w);
    var t := Try(cfg, pass, w');
    && !Try(cfg, pass, w).Panics?
    && (t.Fails? ==> Try(cfg, pass, w).Fails?)
    && (t.NothingToDo? ==> Processed(cfg, lumigos, pass, w))
    && (t.Sends? ==>
          var a := Admit(cfg, lumigos, t.workload);
          a.Admitted? ==> a.workload == w' && Processed(cfg, lumigos, pass, w))
  }

  lemma UnsentSettles(cfg: OperatorConfig, lumigos: Listing, pass: Pass, w: Workload)
    requires var t := Try(cfg, pass, w);
             !t.Panics? && (t.Sends? ==> Admit(cfg, lumigos, t.workload).Denied?)
    ensures Final(cfg, lumigos, pass, w) == w
    ensures Settles(cfg, lumigos, pass, w) && !Fragile(cfg, lumigos, pass, w)
  {}

  lemma TryKeepsKey(cfg: OperatorConfig, pass: Pass, w: Workload)
    ensures Try(cfg, pass, w).Sends? ==>
              Try(cfg, pass, w).workload.Key() == w.Key() && Try(cfg, pass, w).workload.owners == w.owners
    ensures Try(cfg, pass, w).Sends? ==> SkipsReplicaSet(w).None?
  {}

  /** The only workloads that either pass cannot handle at all are ReplicaSets with an owner
      whose API version does not parse. */
  lemma OnlyReplicaSetsFail(cfg: OperatorConfig, pass: Pass, w: Workload)
    requires Lists(pass, w)
    ensures Try(cfg, pass, w).Fails? <==> w.kind.ReplicaSet? && HasDeploymentOwner(w.owners).None?
  {
    if pass.Injecting? {
      assert w.AutoTrace() == "" && |ToLower("")| == 0 && |"false"| == 5;
    }
  }

  lemma FinalKeeps(cfg: OperatorConfig, lumigos: Listing, pass: Pass, w: Workload)
    requires IsAtRest(w)
    ensures var w' := Final(cfg, lumigos, pass, w);
            w'.Key() == w.Key() && w'.owners == w.owners && IsAtRest(w')
  {
    TryKeepsKey(cfg, pass, w);
    if Try(cfg, pass, w).Sends? {
      AdmitKeeps(cfg, lumigos, Try(cfg, pass, w).workload);
    }
  }
}
