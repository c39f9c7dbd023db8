/** `injectLumigoIntoResources`, workload by workload: what the controller does when a Lumigo
    becomes active for the first time. */
module InjectionPass {
  import opened PodSpecs
  import opened Injection
  import opened Workloads
  import opened StoredForm
  import opened InjectorWebhook
  import opened Passes

  /** Unlabelled, mutable after creation, and not left to an owning Deployment. */
  predicate Reachable(l: LumigoView, w: Workload) { Lists(Injecting(l), w) && SkipsReplicaSet(w).None? }

  /** Whose settings end up in the workload: those of the Lumigo that the webhook acts for, if it
      acts, and else those of the Lumigo that the pass is for. */
  function Prevailing(cfg: OperatorConfig, lumigos: Listing, l: LumigoView, w: Workload): Mutator {
    MutatorFromSpec(cfg, if Acts(lumigos, w.kind) then lumigos.items[0] else l)
  }

  predicate HasLabel(labels: Labels, value: string) {
    labels.Some? && AUTO_TRACE in labels.value && labels.value[AUTO_TRACE] == value
  }

  predicate Versioned(cfg: OperatorConfig, w: Workload) {
    HasLabel(w.labels, VersionLabel(cfg.version)) && HasLabel(w.templateLabels, VersionLabel(cfg.version))
  }

  lemma LabelIsWritten(labels: Labels, value: string)
    ensures HasLabel(WithLabel(labels, value), value)
    ensures HasLabel(labels, value) ==> WithLabel(labels, value) == labels && LabelsAtRest(labels) == labels
  {
    if HasLabel(labels, value) {
      assert labels.value[AUTO_TRACE := value] == labels.value;
      assert AUTO_TRACE in labels.value;
    }
  }

  lemma VersionedIsNoOptOut(cfg: OperatorConfig, w: Workload)
    requires Versioned(cfg, w)
    ensures w.AutoTrace() == VersionLabel(cfg.version) && !IsAutoTraced(w)
    ensures LabelsAtRest(w.labels) == w.labels && LabelsAtRest(w.templateLabels) == w.templateLabels
    ensures Versioned(cfg, AtRest(w))
  {
    VersionLabelIsNoOptOut(cfg.version);
    LabelIsWritten(w.labels, VersionLabel(cfg.version));
    LabelIsWritten(w.templateLabels, VersionLabel(cfg.version));
    assert |ToLower(w.AutoTrace())| >= 17 && |"true"| == 4;
  }

  /** A write with a version label and an injected spec is stored with the instrumentation of
      whoever has the last word. */
  lemma InjectedIsAdmitted(cfg: OperatorConfig, lumigos: Listing, l: LumigoView, x: Workload, s: PodSpec)
    requires Versioned(cfg, x) && SkipsReplicaSet(x).None? && !(HandlesKind(x.kind) && lumigos.ListFailed?)
    requires x.spec == InjectPodSpec(MutatorFromSpec(cfg, l), s)
    ensures var m := Prevailing(cfg, lumigos, l, x);
            Admit(cfg, lumigos, x) == Admitted(x.(spec := SpecAtRest(InjectPodSpec(m, s))))
  {
    var rested, m := AtRest(x), MutatorFromSpec(cfg, l);
    VersionedIsNoOptOut(cfg, x);
    ActsOnOthers(cfg, lumigos, rested);
    SpecRests(x.spec);
    if Acts(lumigos, x.kind) {
      var m2 := MutatorFromSpec(cfg, lumigos.items[0]);
      VersionLabelIsNoOptOut(cfg.version);
      LabelIsWritten(x.labels, VersionLabel(cfg.version));
      LabelIsWritten(x.templateLabels, VersionLabel(cfg.version));
      ReadBackIsReinjected(m2, x.spec);
      StoredInjectionAbsorbs(m, m2, s);
    }
  }

  /** The outcome on one workload that the pass is for, in any admission context that does not
      deny: it is stored with the prevailing instrumentation and the version label. */
  lemma InjectionOutcome(cfg: OperatorConfig, lumigos: Listing, l: LumigoView, w: Workload)
    requires IsAtRest(w) && Reachable(l, w) && !(HandlesKind(w.kind) && lumigos.ListFailed?)
    ensures var w', m := Final(cfg, lumigos, Injecting(l), w), Prevailing(cfg, lumigos, l, w);
            && Try(cfg, Injecting(l), w).Sends? && Processed(cfg, lumigos, Injecting(l), w)
            && w' == w.(spec := SpecAtRest(InjectPodSpec(m, w.spec)),
                        labels := WithLabel(w.labels, VersionLabel(cfg.version)),
                        templateLabels := WithLabel(w.templateLabels, VersionLabel(cfg.version)))
            && Versioned(cfg, w') && Carries(m, w'.spec)
  {
    var m := MutatorFromSpec(cfg, l);
    assert w.AutoTrace() == "" && |ToLower("")| == 0 && |"false"| == 5;
    SpecRests(w.spec);
    ReadBackIsReinjected(m, w.spec);
    LabelIsWritten(w.labels, VersionLabel(cfg.version));
    LabelIsWritten(w.templateLabels, VersionLabel(cfg.version));
    var x := Try(cfg, Injecting(l), w).workload;
    InjectedIsAdmitted(cfg, lumigos, l, x, w.spec);
    InjectedCarries(Prevailing(cfg, lumigos, l, w), w.spec);
  }

  /** A retry after a lost response injects once more and stores the same workload. */
  lemma InjectionSettlesWorkload(cfg: OperatorConfig, lumigos: Listing, l: LumigoView, w: Workload)
    requires IsAtRest(w) && Lists(Injecting(l), w)
    ensures Settles(cfg, lumigos, Injecting(l), w) && !Fragile(cfg, lumigos, Injecting(l), w)
    ensures Reachable(l, w) && Processed(cfg, lumigos, Injecting(l), w) ==>
              Carries(Prevailing(cfg, lumigos, l, w), Final(cfg, lumigos, Injecting(l), w).spec)
  {
    TryKeepsKey(cfg, Injecting(l), w);
    var t := Try(cfg, Injecting(l), w);
    if Reachable(l, w) && !(HandlesKind(w.kind) && lumigos.ListFailed?) {
      InjectionOutcome(cfg, lumigos, l, w);
      InjectionRepeats(cfg, lumigos, l, w);
    } else {
      if t.Sends? { AdmitKeeps(cfg, lumigos, t.workload); }
      UnsentSettles(cfg, lumigos, Injecting(l), w);
      if Reachable(l, w) { NeverNothingToDo(cfg, l, w); }
    }
  }

  lemma NeverNothingToDo(cfg: OperatorConfig, l: LumigoView, w: Workload)
    requires IsAtRest(w) && Reachable(l, w)
    ensures Try(cfg, Injecting(l), w).Sends?
  {
    assert w.AutoTrace() == "" && |ToLower("")| == 0 && |"false"| == 5;
    ReadBackIsReinjected(MutatorFromSpec(cfg, l), w.spec);
  }

  /** A workload that was injected and stored is injected again. */
  lemma InjectedIsResent(cfg: OperatorConfig, l: LumigoView, w: Workload, s: PodSpec)
    requires Versioned(cfg, w) && SkipsReplicaSet(w).None? && w.spec == SpecAtRest(s)
    ensures Try(cfg, Injecting(l), w) == Sends(w.(spec := InjectPodSpec(MutatorFromSpec(cfg, l), w.spec)))
  {
    VersionedIsNoOptOut(cfg, w);
    VersionLabelIsNoOptOut(cfg.version);
    ReadBackIsReinjected(MutatorFromSpec(cfg, l), s);
    LabelIsWritten(w.labels, VersionLabel(cfg.version));
    LabelIsWritten(w.templateLabels, VersionLabel(cfg.version));
  }

  lemma InjectionRepeats(cfg: OperatorConfig, lumigos: Listing, l: LumigoView, w: Workload)
    requires IsAtRest(w) && Reachable(l, w) && !(HandlesKind(w.kind) && lumigos.ListFailed?)
    ensures var w' := Final(cfg, lumigos, Injecting(l), w);
            var again := Try(cfg, Injecting(l), w');
            again.Sends? && Admit(cfg, lumigos, again.workload) == Admitted(w')
  {
    InjectionOutcome(cfg, lumigos, l, w);
    StoredIsStable(cfg, lumigos, l, Final(cfg, lumigos, Injecting(l), w), w.spec);
  }

  lemma StoredIsStable(cfg: OperatorConfig, lumigos: Listing, l: LumigoView, w: Workload, s: PodSpec)
    requires Versioned(cfg, w) && SkipsReplicaSet(w).None? && !(HandlesKind(w.kind) && lumigos.ListFailed?)
    requires w.spec == SpecAtRest(InjectPodSpec(Prevailing(cfg, lumigos, l, w), s))
    ensures var again := Try(cfg, Injecting(l), w);
            again.Sends? && Admit(cfg, lumigos, again.workload) == Admitted(w)
  {
    var m := Prevailing(cfg, lumigos, l, w);
    InjectedIsResent(cfg, l, w, InjectPodSpec(m, s));
    InjectedIsAdmitted(cfg, lumigos, l, Try(cfg, Injecting(l), w).workload, w.spec);
    StoredInjectionAbsorbs(m, m, s);
  }
}
