/** The mutating admission webhook that every create and update of a workload goes through. */
module InjectorWebhook {
  import opened Sequences
  import opened PodSpecs
  import opened Injection
  import opened InjectionLaws
  import opened Workloads
  import opened StoredForm

  datatype OperatorConfig = OperatorConfig(
    version: string, injectorImage: string, endpoint: string, logsEndpoint: string)

  /** What the webhook reads of a Lumigo object. */
  datatype LumigoView = LumigoView(
    active: bool,
    injectionEnabled: Option<bool>,
    tracingEnabled: Option<bool>,
    loggingEnabled: Option<bool>,
    secretName: string,
    secretKey: string)

  /** The answer to listing the Lumigo objects of the namespace. */
  datatype Listing = ListFailed | NoSuchResource | Listed(items: seq<LumigoView>)

  datatype Admission = Denied | Admitted(workload: Workload)

  function VersionLabel(version: string): string {
    VERSION_PREFIX + if |version| > 8 then version[0..7] else version
  }

  function MutatorFromSpec(cfg: OperatorConfig, l: LumigoView): Mutator {
    Mutator(VersionLabel(cfg.version), cfg.endpoint, cfg.logsEndpoint,
            l.loggingEnabled == Some(true), l.tracingEnabled != Some(false),
            l.secretName, l.secretKey, cfg.injectorImage)
  }

  /** `createAutoTraceSettings` followed by `NewMutatorFromAutoTraceSettings` */
  function MutatorFromLabels(cfg: OperatorConfig, labels: Labels): Mutator {
    var has := (k: string) => labels.Some? && k in labels.value;
    Mutator(VersionLabel(cfg.version), cfg.endpoint, cfg.logsEndpoint,
            ToLower(LabelOf(labels, ENABLE_LOGS)) == "true",
            ToLower(LabelOf(labels, ENABLE_TRACES)) != "false",
            if has(TOKEN_SECRET) then LabelOf(labels, TOKEN_SECRET) else "lumigo-credentials",
            if has(TOKEN_KEY) then LabelOf(labels, TOKEN_KEY) else "token",
            cfg.injectorImage)
  }

  predicate IsAutoTraced(w: Workload) { ToLower(w.AutoTrace()) == "true" }

  /** `newResourceAdapter` spells the kind "Daemonset", so DaemonSets take its default branch. */
  predicate HandlesKind(k: Kind) { !k.DaemonSet? }

  function ProcessResourceInjection(m: Mutator, w: Workload): Workload {
    if w.AutoTrace() == SKIP_NEXT_INJECTOR then w.(labels := WithoutLabel(w.labels))
    else
      match InjectInto(m, w)
      case Failed => w
      case Done(_, w') => w'
  }

  /** The mutator that a create or update is processed with, if any. */
  function ActingMutator(cfg: OperatorConfig, lumigos: Listing, w: Workload): Option<Mutator> {
    if !HandlesKind(w.kind) || !lumigos.Listed? then None
    else if |lumigos.items| < 1 then
      if IsAutoTraced(w) then Some(MutatorFromLabels(cfg, w.labels)) else None
    else
      var l := lumigos.items[0];
      if l.injectionEnabled == Some(false) || !l.active then None else Some(MutatorFromSpec(cfg, l))
  }

  /** `Handle` for creates and updates */
  function Handle(cfg: OperatorConfig, lumigos: Listing, w: Workload): Admission {
    if HandlesKind(w.kind) && lumigos.ListFailed? then Denied
    else
      match ActingMutator(cfg, lumigos, w)
      case None => Admitted(w)
      case Some(m) => Admitted(ProcessResourceInjection(m, w))
  }

  /** A whole write: the webhook sees the object as it is encoded, with the API server's
      defaults, and what it answers is stored. */
  function Admit(cfg: OperatorConfig, lumigos: Listing, w: Workload): Admission {
    match Handle(cfg, lumigos, AtRest(w))
    case Denied => Denied
    case Admitted(w') => Admitted(AtRest(w'))
  }

  lemma AdmitKeeps(cfg: OperatorConfig, lumigos: Listing, w: Workload)
    ensures Admit(cfg, lumigos, w).Denied? <==> HandlesKind(w.kind) && lumigos.ListFailed?
    ensures Admit(cfg, lumigos, w).Admitted? ==>
              var w' := Admit(cfg, lumigos, w).workload;
              w'.Key() == w.Key() && w'.owners == w.owners && IsAtRest(w')
  {
    if Handle(cfg, lumigos, AtRest(w)).Admitted? {
      StoringOnceIsEnough(Handle(cfg, lumigos, AtRest(w)).workload);
    }
  }

  /** Some Lumigo of the namespace makes the webhook act on workloads of this kind, whatever
      their labels. */
  predicate Acts(lumigos: Listing, kind: Kind) {
    && HandlesKind(kind) && lumigos.Listed? && |lumigos.items| > 0
    && lumigos.items[0].injectionEnabled != Some(false) && lumigos.items[0].active
  }

  /** On a workload that does not opt in by itself, the webhook acts exactly for such a Lumigo. */
  lemma ActsOnOthers(cfg: OperatorConfig, lumigos: Listing, w: Workload)
    requires !IsAutoTraced(w)
    ensures ActingMutator(cfg, lumigos, w).Some? <==> Acts(lumigos, w.kind)
  {}

  /** Nothing in the namespace asks for this workload to be instrumented. */
  predicate StaysOut(lumigos: Listing, w: Workload) {
    || w.kind == DaemonSet
    || lumigos == NoSuchResource
    || (lumigos.Listed? && lumigos.items == [] && ToLower(LabelOf(w.labels, "lumigo.auto-trace")) != "true")
    || (lumigos.Listed? && lumigos.items != []
        && (!lumigos.items[0].active || lumigos.items[0].injectionEnabled == Some(false)))
  }

  /** What the webhook does with every workload in every context: it denies when it cannot list
      the Lumigos, leaves alone what nothing asks for, consumes the marker, respects the opt-out
      and owning Deployments, and instruments the rest for the first Lumigo listed or, without
      one, for the workload's own labels. */
  lemma WebhookActsExactly(cfg: OperatorConfig, lumigos: Listing, w: Workload)
    ensures Handle(cfg, lumigos, w).Denied? <==> w.kind != DaemonSet && lumigos == ListFailed
    ensures StaysOut(lumigos, w) ==> Handle(cfg, lumigos, w) == Admitted(w)
    ensures !StaysOut(lumigos, w) && lumigos != ListFailed ==>
              var value, admitted := LabelOf(w.labels, "lumigo.auto-trace"), Handle(cfg, lumigos, w);
              var m := if lumigos.items == [] then MutatorFromLabels(cfg, w.labels)
                       else MutatorFromSpec(cfg, lumigos.items[0]);
              && admitted.Admitted?
              && (value == "skip-next-injector" ==>
                    admitted.workload == w.(labels := Some(w.labels.value - {"lumigo.auto-trace"})))
              && (value != "skip-next-injector" ==>
                    if ToLower(value) == "false" || SkipsReplicaSet(w).Some? then admitted.workload == w
                    else
                      && admitted.workload.spec == InjectPodSpec(m, w.spec)
                      && InstrumentedBy(m, admitted.workload.spec))
  {
    if !StaysOut(lumigos, w) && lumigos != ListFailed {
      var m := if lumigos.items == [] then MutatorFromLabels(cfg, w.labels) else MutatorFromSpec(cfg, lumigos.items[0]);
      AdmissionInstruments(cfg, lumigos, w, m);
    }
  }

  /** The admitted spec is fully instrumented for the acting mutator, unless the resource
      opted out, carries the skip marker or is a ReplicaSet that is left to its Deployment. */
  lemma AdmissionInstruments(cfg: OperatorConfig, lumigos: Listing, w: Workload, m: Mutator)
    requires ActingMutator(cfg, lumigos, w) == Some(m)
    ensures Handle(cfg, lumigos, w).Admitted?
    ensures var optedOut := w.AutoTrace() == SKIP_NEXT_INJECTOR || ToLower(w.AutoTrace()) == "false"
              || SkipsReplicaSet(w).Some?;
            var spec := Handle(cfg, lumigos, w).workload.spec;
            && (optedOut ==> spec == w.spec)
            && (!optedOut ==> spec == InjectPodSpec(m, w.spec) && InstrumentedBy(m, spec))
  {
    InjectionInstruments(m, w.spec);
  }

  lemma VersionLabelIsNoOptOut(version: string)
    ensures VERSION_PREFIX <= VersionLabel(version)
    ensures ToLower(VersionLabel(version)) != "false" && VersionLabel(version) != SKIP_NEXT_INJECTOR
  {
    assert VersionLabel(version)[..|VERSION_PREFIX|] == VERSION_PREFIX && |VERSION_PREFIX| == 17;
    assert |ToLower(VersionLabel(version))| >= 17 && |"false"| == 5;
    assert VersionLabel(version)[0] == VERSION_PREFIX[0] == 'l' && SKIP_NEXT_INJECTOR[0] == 's';
  }

  /** The version in the label is cut to seven characters if it has more than eight, which keeps
      the value within the 63 characters that Kubernetes allows. */
  lemma VersionLabelText(version: string)
    ensures |version| <= 8 ==> VersionLabel(version) == "lumigo-operator.v" + version
    ensures |version| > 8 ==>
              |VersionLabel(version)| == 24 && forall i :: 0 <= i < 7 ==> VersionLabel(version)[17 + i] == version[i]
    ensures |VersionLabel(version)| <= 63
  {
    assert |"lumigo-operator.v"| == 17;
  }

  /** Injection reports a mutation exactly for specs that are not fully instrumented yet; then
      both the resource and its pod template carry the mutator's label, and nothing but the
      spec and that label differs. */
  lemma InjectionReport(m: Mutator, w: Workload)
    requires InjectInto(m, w).Done? && SkipsReplicaSet(w).None?
    ensures var r := InjectInto(m, w);
            && (r.occurred <==> !InstrumentedBy(m, w.spec))
            && (!r.occurred ==> r.workload == w)
            && (r.occurred ==>
                  && r.workload.AutoTrace() == m.labelValue
                  && LabelOf(r.workload.templateLabels, AUTO_TRACE) == m.labelValue
                  && WithoutLabel(r.workload.labels).value ==
                      (if w.labels.None? then map[] else WithoutLabel(w.labels).value)
                  && r.workload == w.(spec := InjectPodSpec(m, w.spec), labels := r.workload.labels,
                                      templateLabels := r.workload.templateLabels))
  {
    FixedPointsAreInstrumented(m, w.spec);
    if w.labels.Some? {
      assert w.labels.value[AUTO_TRACE := m.labelValue] - {AUTO_TRACE} == w.labels.value - {AUTO_TRACE};
    } else {
      assert map[AUTO_TRACE := m.labelValue] - {AUTO_TRACE} == map[];
    }
  }

  /** Injecting a second time finds nothing to do, and says so. */
  lemma SecondInjectionReportsNothing(m: Mutator, w: Workload, version: string)
    requires m.labelValue == VersionLabel(version) && InjectInto(m, w).Done?
    ensures InjectInto(m, InjectInto(m, w).workload) == Done(false, InjectInto(m, w).workload)
  {
    InjectionInstruments(m, w.spec);
    VersionLabelIsNoOptOut(version);
  }

  /** What the containers of an admitted workload report, and with which secret, when a Lumigo
      acts on it: its own settings, logs off and traces on by default. */
  lemma LumigoSettingsReachContainers(cfg: OperatorConfig, lumigos: Listing, w: Workload, i: nat)
    requires w.kind != DaemonSet && lumigos.Listed? && |lumigos.items| > 0
    requires lumigos.items[0].active && lumigos.items[0].injectionEnabled != Some(false)
    requires w.AutoTrace() != SKIP_NEXT_INJECTOR && ToLower(w.AutoTrace()) != "false" && SkipsReplicaSet(w).None?
    requires i < |w.spec.containers.Elems()|
    ensures var l, admitted := lumigos.items[0], Handle(cfg, lumigos, w);
            && admitted.Admitted? && admitted.workload.spec.containers.Items?
            && i < |admitted.workload.spec.containers.items|
            && var env := admitted.workload.spec.containers.items[i].env;
            && env.Items?
            && FirstIs(EnvName, env.items,
                EnvVar(TRACER_TOKEN_ENV, "", Some(SecretKeyRef(l.secretName, l.secretKey, Some(true)))))
            && FirstIs(EnvName, env.items, EnvVar(ENDPOINT_ENV, cfg.endpoint, None))
            && FirstIs(EnvName, env.items, EnvVar(LOGS_ENDPOINT_ENV, cfg.logsEndpoint, None))
            && FirstIs(EnvName, env.items,
                EnvVar(ENABLE_LOGS_ENV, if l.loggingEnabled == Some(true) then "true" else "false", None))
            && FirstIs(EnvName, env.items,
                EnvVar(ENABLE_TRACES_ENV, if l.tracingEnabled == Some(false) then "false" else "true", None))
            && UsesInjectorImage(cfg, admitted.workload.spec)
  {
    var m := MutatorFromSpec(cfg, lumigos.items[0]);
    AdmissionInstruments(cfg, lumigos, w, m);
    InjectorIsConfigured(m, w.spec);
    ContainerConfigured(m, w.spec.containers.Elems()[i]);
  }

  predicate UsesInjectorImage(cfg: OperatorConfig, s: PodSpec) {
    var ics := s.initContainers.Elems();
    var i := FirstIndex(ContainerName, ics, "lumigo-injector");
    i < |ics| && ics[i].image == cfg.injectorImage
  }

  /** Without a Lumigo in the namespace, a workload that opts in by label is instrumented with
      the secret that its labels name, or the default one. */
  lemma LabelSettingsReachContainers(cfg: OperatorConfig, w: Workload, i: nat)
    requires HandlesKind(w.kind) && IsAutoTraced(w) && SkipsReplicaSet(w).None? && i < |w.spec.containers.Elems()|
    ensures var admitted := Handle(cfg, Listed([]), w);
            && admitted.Admitted? && admitted.workload.spec.containers.Items?
            && i < |admitted.workload.spec.containers.items|
            && var env := admitted.workload.spec.containers.items[i].env;
            && env.Items?
            && FirstIs(EnvName, env.items, EnvVar(TRACER_TOKEN_ENV, "", Some(SecretKeyRef(
                 if "lumigo.token-secret" in w.labels.value then w.labels.value["lumigo.token-secret"]
                 else "lumigo-credentials",
                 if "lumigo.token-key" in w.labels.value then w.labels.value["lumigo.token-key"] else "token",
                 Some(true)))))
            && FirstIs(EnvName, env.items,
                EnvVar(ENABLE_LOGS_ENV,
                       if ToLower(LabelOf(w.labels, "lumigo.enable-logs")) == "true" then "true" else "false", None))
            && FirstIs(EnvName, env.items,
                EnvVar(ENABLE_TRACES_ENV,
                       if ToLower(LabelOf(w.labels, "lumigo.enable-traces")) == "false" then "false" else "true", None))
            && FirstIs(EnvName, env.items, EnvVar(ENDPOINT_ENV, cfg.endpoint, None))
            && FirstIs(EnvName, env.items, EnvVar(LOGS_ENDPOINT_ENV, cfg.logsEndpoint, None))
            && UsesInjectorImage(cfg, admitted.workload.spec)
  {
    var m := MutatorFromLabels(cfg, w.labels);
    InjectorIsConfigured(m, w.spec);
    OptInIsNoOptOut(w);
    AdmissionInstruments(cfg, Listed([]), w, m);
    ContainerConfigured(m, w.spec.containers.Elems()[i]);
  }

  lemma OptInIsNoOptOut(w: Workload)
    requires IsAutoTraced(w)
    ensures w.labels.Some? && ToLower(w.AutoTrace()) != "false" && w.AutoTrace() != SKIP_NEXT_INJECTOR
  {
    assert |w.AutoTrace()| == |"true"| == 4 && |"false"| == 5 && |SKIP_NEXT_INJECTOR| == 18;
  }

  /** The marker holds off exactly one admission: the next one injects. */
  lemma MarkerShieldsOnce(cfg: OperatorConfig, lumigos: Listing, w: Workload, m: Mutator)
    requires ActingMutator(cfg, lumigos, w) == Some(m) && lumigos.items != []
    requires w.AutoTrace() == SKIP_NEXT_INJECTOR && SkipsReplicaSet(w).None?
    ensures var first := Handle(cfg, lumigos, w);
            && first.Admitted? && first.workload.spec == w.spec && first.workload.AutoTrace() == ""
            && var second := Handle(cfg, lumigos, first.workload);
            && second.Admitted? && second.workload.spec == InjectPodSpec(m, w.spec)
  {
    var first := Handle(cfg, lumigos, w).workload;
    assert |ToLower("")| == 0;
    AdmissionInstruments(cfg, lumigos, first, m);
  }
}
