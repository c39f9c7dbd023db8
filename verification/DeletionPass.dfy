/** `RemoveLumigoFromResources`, workload by workload: what the controller does when a Lumigo is
    deleted, while the webhook still sees that Lumigo and would inject on every update. */
module DeletionPass {
  import opened Sequences
  import opened Injection
  import opened Workloads
  import opened StoredForm
  import opened InjectorWebhook
  import opened Passes

  /** Selected, mutable after creation, and not left to an owning Deployment. */
  predicate Reached(w: Workload) { Lists(Removing, w) && SkipsReplicaSet(w).None? }

  function AfterPass(cfg: OperatorConfig, lumigos: Listing, w: Workload): Workload {
    Final(cfg, lumigos, Removing, w)
  }

  lemma LabelRewrites(labels: Labels)
    requires labels.Some?
    ensures LabelOf(LabelsAtRest(WithoutLabel(labels)), AUTO_TRACE) == ""
    ensures LabelOf(WithLabel(labels, SKIP_NEXT_INJECTOR), AUTO_TRACE) == SKIP_NEXT_INJECTOR
    ensures WithoutLabel(WithLabel(WithoutLabel(labels), SKIP_NEXT_INJECTOR)) == WithoutLabel(labels)
    ensures WithLabel(WithoutLabel(labels), SKIP_NEXT_INJECTOR) == WithLabel(labels, SKIP_NEXT_INJECTOR)
    ensures LabelsAtRest(WithLabel(labels, SKIP_NEXT_INJECTOR)) == WithLabel(labels, SKIP_NEXT_INJECTOR)
  {
    var m := labels.value;
    assert (m - {AUTO_TRACE})[AUTO_TRACE := SKIP_NEXT_INJECTOR] - {AUTO_TRACE} == m - {AUTO_TRACE};
    assert (m - {AUTO_TRACE})[AUTO_TRACE := SKIP_NEXT_INJECTOR] == m[AUTO_TRACE := SKIP_NEXT_INJECTOR];
    assert AUTO_TRACE in m[AUTO_TRACE := SKIP_NEXT_INJECTOR];
  }

  lemma MarkerIsNoOptIn()
    ensures ToLower(SKIP_NEXT_INJECTOR) != "true" && ToLower(SKIP_NEXT_INJECTOR) != "false"
  {
    assert |ToLower(SKIP_NEXT_INJECTOR)| == |SKIP_NEXT_INJECTOR| == 18 && |"true"| == 4 && |"false"| == 5;
  }

  /** A marked write is stored with its spec untouched; the marker is gone exactly if the webhook
      acts. */
  lemma MarkedIsAdmitted(cfg: OperatorConfig, lumigos: Listing, x: Workload)
    requires x.labels.Some? && x.AutoTrace() == SKIP_NEXT_INJECTOR && !(HandlesKind(x.kind) && lumigos.ListFailed?)
    ensures var rested := AtRest(x);
            Admit(cfg, lumigos, x) == Admitted(
              if Acts(lumigos, x.kind) then rested.(labels := LabelsAtRest(WithoutLabel(x.labels))) else rested)
  {
    MarkerIsNoOptIn();
    assert AUTO_TRACE in x.labels.value;
    var rested := AtRest(x);
    assert rested.labels == x.labels;
    ActsOnOthers(cfg, lumigos, rested);
    SpecRests(x.spec);
  }

  /** The outcome on one selected workload, in any admission context that does not deny: at rest
      its spec is exactly the removed one. If removal changed anything, the marker that shielded
      the update is gone afterwards exactly when the webhook was acting on it. */
  lemma PassOutcome(cfg: OperatorConfig, lumigos: Listing, w: Workload)
    requires IsAtRest(w) && Reached(w)
    requires !(HandlesKind(w.kind) && lumigos.ListFailed?)
    ensures var w' := AfterPass(cfg, lumigos, w);
            && w' == w.(spec := SpecAtRest(RemovePodSpec(w.spec)),
                        labels := w'.labels, templateLabels := w'.templateLabels)
            && (RemovePodSpec(w.spec) == w.spec ==> w' == w)
            && (RemovePodSpec(w.spec) != w.spec ==>
                  && w'.templateLabels == LabelsAtRest(WithoutLabel(w.templateLabels))
                  && w'.labels == if Acts(lumigos, w.kind) then LabelsAtRest(WithoutLabel(w.labels))
                                  else WithLabel(w.labels, SKIP_NEXT_INJECTOR))
  {
    LabelRewrites(w.labels);
    var t := Try(cfg, Removing, w);
    if t.Sends? {
      MarkedIsAdmitted(cfg, lumigos, t.workload);
    }
  }

  /** While the Lumigo is active, the marker is consumed for every kind but DaemonSets. */
  lemma HandshakeConsumesMarker(cfg: OperatorConfig, lumigos: Listing, w: Workload)
    requires IsAtRest(w) && Reached(w) && RemovePodSpec(w.spec) != w.spec
    requires lumigos.Listed? && |lumigos.items| == 1
    requires lumigos.items[0].active && lumigos.items[0].injectionEnabled != Some(false)
    ensures var marker := AfterPass(cfg, lumigos, w).AutoTrace();
            if w.kind.DaemonSet? then marker == SKIP_NEXT_INJECTOR else marker == ""
  {
    PassOutcome(cfg, lumigos, w);
    LabelRewrites(w.labels);
  }

  /** Without the marker the same update would be stored with the instrumentation back in. */
  lemma UnmarkedUpdateIsReinjected(cfg: OperatorConfig, lumigos: Listing, w: Workload)
    requires Selected(w) && Acts(lumigos, w.kind) && SkipsReplicaSet(w).None? && RemoveFrom(w).occurred
    ensures var m := MutatorFromSpec(cfg, lumigos.items[0]);
            var admitted := Admit(cfg, lumigos, RemoveFrom(w).workload);
            && admitted.Admitted? && Carries(m, admitted.workload.spec)
            && admitted.workload.spec != SpecAtRest(RemovePodSpec(w.spec))
  {
    var m, x := MutatorFromSpec(cfg, lumigos.items[0]), RemoveFrom(w).workload;
    LabelRewrites(w.labels);
    assert AtRest(x).AutoTrace() == "" && |ToLower("")| == 0 && |"false"| == 5 && |SKIP_NEXT_INJECTOR| == 18;
    AdmissionInstruments(cfg, lumigos, AtRest(x), m);
    InjectedCarries(m, AtRest(x).spec);
    RemovedCarriesNothing(m, w.spec);
  }

  // ---------------------------------------------------------------- after a lost response

  predicate OnlyLabel(w: Workload) { w.labels.Some? && w.labels.value.Keys == {AUTO_TRACE} }

  lemma OnlyLabelRests(labels: Labels)
    requires labels.Some? && AUTO_TRACE in labels.value
    ensures LabelsAtRest(WithoutLabel(labels)).None? <==> labels.value.Keys == {AUTO_TRACE}
  {
    var m := labels.value;
    if m.Keys == {AUTO_TRACE} {
      assert m - {AUTO_TRACE} == map[];
    } else {
      var k :| k in m && k != AUTO_TRACE;
      assert k in m - {AUTO_TRACE};
    }
  }

  /** What a retry finds after an update whose response was lost, exactly: nothing to do if every
      container keeps a variable of its own; otherwise a "change" again, since an emptied
      environment is read back as nil. It then panics if the auto-trace label was the only one
      and the webhook has consumed it, and else stores the same workload once more. */
  lemma RetryAfterLostResponse(cfg: OperatorConfig, lumigos: Listing, w: Workload)
    requires IsAtRest(w) && Reached(w) && RemovePodSpec(w.spec) != w.spec
    requires !(HandlesKind(w.kind) && lumigos.ListFailed?)
    ensures var w' := AfterPass(cfg, lumigos, w);
            var again := Try(cfg, Removing, w');
            && (again.NothingToDo? <==> !Depletes(w.spec))
            && (again.Panics? <==> Depletes(w.spec) && OnlyLabel(w) && Acts(lumigos, w.kind))
            && (again.Sends? <==> Depletes(w.spec) && !(OnlyLabel(w) && Acts(lumigos, w.kind)))
            && (again.Sends? ==> Admit(cfg, lumigos, again.workload) == Admitted(w'))
  {
    PassOutcome(cfg, lumigos, w);
    RemovalFromReadBack(w.spec);
    OnlyLabelRests(w.labels);
    LabelRewrites(w.labels);
    var w' := AfterPass(cfg, lumigos, w);
    assert SkipsReplicaSet(w').None?;
    var again := Try(cfg, Removing, w');
    if again.Sends? {
      ResentIsTheSame(cfg, lumigos, w);
    }
  }

  lemma TemplateLabelRests(labels: Labels)
    ensures LabelsAtRest(WithoutLabel(LabelsAtRest(WithoutLabel(labels)))) == LabelsAtRest(WithoutLabel(labels))
  {
    if labels.Some? {
      assert (labels.value - {AUTO_TRACE}) - {AUTO_TRACE} == labels.value - {AUTO_TRACE};
    }
  }

  lemma ResentIsTheSame(cfg: OperatorConfig, lumigos: Listing, w: Workload)
    requires IsAtRest(w) && Reached(w) && RemovePodSpec(w.spec) != w.spec
    requires !(HandlesKind(w.kind) && lumigos.ListFailed?)
    requires Try(cfg, Removing, AfterPass(cfg, lumigos, w)).Sends?
    ensures Admit(cfg, lumigos, Try(cfg, Removing, AfterPass(cfg, lumigos, w)).workload)
            == Admitted(AfterPass(cfg, lumigos, w))
  {
    PassOutcome(cfg, lumigos, w);
    var w' := AfterPass(cfg, lumigos, w);
    var x := Try(cfg, Removing, w').workload;
    LabelRewrites(w.labels);
    LabelRewrites(w'.labels);
    MarkedIsAdmitted(cfg, lumigos, x);
    RemovalSettles(w.spec);
    TemplateLabelRests(w.templateLabels);
    if Acts(lumigos, w.kind) {
      assert w'.labels.value == w.labels.value - {AUTO_TRACE};
      assert w'.labels.value - {AUTO_TRACE} == w'.labels.value;
    } else {
      assert w'.labels.value[AUTO_TRACE := SKIP_NEXT_INJECTOR] == w'.labels.value;
    }
  }

  lemma RemovalSettlesWorkload(cfg: OperatorConfig, lumigos: Listing, w: Workload)
    requires IsAtRest(w) && Lists(Removing, w)
    ensures Settles(cfg, lumigos, Removing, w)
    ensures Reached(w) && Processed(cfg, lumigos, Removing, w) ==>
              AfterPass(cfg, lumigos, w).spec == SpecAtRest(RemovePodSpec(w.spec))
    ensures Fragile(cfg, lumigos, Removing, w) ==> Depletes(w.spec) && OnlyLabel(w) && Acts(lumigos, w.kind)
  {
    var t := Try(cfg, Removing, w);
    if t.Sends? && Admit(cfg, lumigos, t.workload).Admitted? {
      AdmitKeeps(cfg, lumigos, t.workload);
      PassOutcome(cfg, lumigos, w);
      RetryAfterLostResponse(cfg, lumigos, w);
    } else {
      UnsentSettles(cfg, lumigos, Removing, w);
    }
  }
}
