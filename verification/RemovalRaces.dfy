/** What other writers, lost responses and stale reads can do to a removal pass: when writing the
    skip marker panics, when removal is skipped, and what becomes of a workload that keeps the
    marker. */
module RemovalRaces {
  import opened Sequences
  import opened PodSpecs
  import opened Injection
  import opened InjectionLaws
  import opened Workloads
  import opened StoredForm
  import opened InjectorWebhook
  import opened Passes
  import opened DeletionPass
  import opened InjectionPass
  import opened LabelProtocol

  // ---------------------------------------------------------------- the nil map

  /** Without labels, but with something for removal to change. */
  predicate Exposed(w: Workload) {
    w.labels.None? && SkipsReplicaSet(w).None? && RemovePodSpec(w.spec) != w.spec
  }

  lemma ExposedPanics(cfg: OperatorConfig, w: Workload)
    ensures Try(cfg, Removing, w).Panics? <==> Exposed(w)
  {}

  /** The step panics. It does so before the Update, so a stale copy panics as well. */
  predicate PanicsAt(cfg: OperatorConfig, c: Cluster, step: Step) {
    step.ControllerUpdate? && HasCopy(c, step.worker) && Attempted(cfg, c, step.worker).Panics?
  }

  predicate OnlyMarker(w: Workload) { w.labels == Some(map[AUTO_TRACE := SKIP_NEXT_INJECTOR]) }

  /** A write that leaves a workload without labels, as stored, although there is something to
      remove: it has none and the webhook does not act, or it has just the marker and the
      webhook consumes that. */
  predicate Strips(cfg: OperatorConfig, w: Workload, lumigos: Listing) {
    var x := AtRest(w);
    && !(HandlesKind(w.kind) && lumigos.ListFailed?) && SkipsReplicaSet(w).None?
    && RemovePodSpec(x.spec) != x.spec
    && if Acts(lumigos, w.kind) then OnlyMarker(x) else x.labels.None?
  }

  lemma ActedOn(m: Mutator, x: Workload)
    requires IsAtRest(x) && SkipsReplicaSet(x).None?
    ensures var x' := ProcessResourceInjection(m, x);
            && (LabelsAtRest(x'.labels).None? <==> OnlyMarker(x))
            && (OnlyMarker(x) ==> x'.spec == x.spec)
  {
    ReadBackIsReinjected(m, x.spec);
    if x.AutoTrace() == SKIP_NEXT_INJECTOR {
      OnlyLabelRests(x.labels);
      OnlyMarkerKeys(x.labels);
    } else {
      LabelIsWritten(x.labels, m.labelValue);
      LabelIsWritten(WithLabel(x.labels, m.labelValue), m.labelValue);
      assert |ToLower("")| == 0 && |"false"| == 5;
    }
  }

  lemma OnlyMarkerKeys(labels: Labels)
    requires labels.Some? && AUTO_TRACE in labels.value && labels.value[AUTO_TRACE] == SKIP_NEXT_INJECTOR
    ensures labels.value.Keys == {AUTO_TRACE} <==> labels == Some(map[AUTO_TRACE := SKIP_NEXT_INJECTOR])
  {
    if labels.value.Keys == {AUTO_TRACE} {
      assert labels.value == map[AUTO_TRACE := SKIP_NEXT_INJECTOR];
    }
  }

  /** What a write stores can make the removal pass panic exactly if the write strips. */
  lemma AdmittedPanicsIffStrips(cfg: OperatorConfig, w: Workload, lumigos: Listing)
    ensures (Admit(cfg, lumigos, w).Admitted? && Exposed(Admit(cfg, lumigos, w).workload)) <==> Strips(cfg, w, lumigos)
  {
    var x := AtRest(w);
    StoringOnceIsEnough(w);
    AdmitKeeps(cfg, lumigos, w);
    var m := ActingMutator(cfg, lumigos, x);
    if IsAutoTraced(x) {
      OptInIsNoOptOut(x);
    } else {
      ActsOnOthers(cfg, lumigos, x);
    }
    if m.Some? && SkipsReplicaSet(x).None? {
      ActedOn(m.value, x);
    }
  }

  /** No version of any object, as it was ever stored, would make the removal pass panic. */
  ghost predicate Safe(c: Cluster) { forall s :: s in c.history ==> !Exposed(s.workload) }

  /** The step stores a workload that would: a user write that strips, or an update of the
      removal pass itself, when the label that it takes away is the only one, the webhook takes
      away the marker, and a container is left without an environment. */
  predicate Exposes(cfg: OperatorConfig, c: Cluster, step: Step) {
    match step
    case UserWrite(w, lumigos) => Strips(cfg, w, lumigos)
    case ControllerUpdate(worker, lumigos) =>
      && CanUpdate(c, worker) && c.tasks[worker].pass.Removing? && Attempted(cfg, c, worker).Sends?
      && var w := c.tasks[worker].copy.value.workload;
      Depletes(w.spec) && OnlyLabel(w) && Acts(lumigos, w.kind)
    case _ => false
  }

  lemma PutSafe(cfg: OperatorConfig, c: Cluster, w: Workload, lumigos: Listing)
    requires Safe(c)
    ensures Safe(Put(cfg, c, w, lumigos)) <==> !Strips(cfg, w, lumigos)
  {
    AdmittedPanicsIffStrips(cfg, w, lumigos);
    if Admit(cfg, lumigos, w).Admitted? {
      assert Stored(c.nextVersion, Admit(cfg, lumigos, w).workload) in Put(cfg, c, w, lumigos).history;
    }
  }

  lemma SomeOtherKey(m: map<string, string>, k: string)
    requires m != map[]
    ensures m.Keys == {k} || exists other :: other in m && other != k
  {
    assert m.Keys != {};
    if forall other :: other in m ==> other == k {
      assert m.Keys <= {k};
    }
  }

  lemma MarkedLabels(labels: Labels)
    requires labels.Some? && labels.value != map[]
    ensures var marked := WithLabel(WithoutLabel(labels), SKIP_NEXT_INJECTOR);
            && LabelsAtRest(marked) == marked
            && (marked == Some(map[AUTO_TRACE := SKIP_NEXT_INJECTOR]) <==> labels.value.Keys == {AUTO_TRACE})
  {
    var m := labels.value;
    var marked := (m - {AUTO_TRACE})[AUTO_TRACE := SKIP_NEXT_INJECTOR];
    assert AUTO_TRACE in marked;
    SomeOtherKey(m, AUTO_TRACE);
    if k :| k in m && k != AUTO_TRACE {
      assert k in marked && k !in map[AUTO_TRACE := SKIP_NEXT_INJECTOR];
    } else {
      assert marked == map[AUTO_TRACE := SKIP_NEXT_INJECTOR];
    }
  }

  /** What the removal pass sends, as it reaches the webhook. */
  lemma SentForRemoval(cfg: OperatorConfig, w: Workload)
    requires IsAtRest(w) && Try(cfg, Removing, w).Sends?
    ensures var sent := Try(cfg, Removing, w).workload;
            && sent.kind == w.kind && SkipsReplicaSet(sent).None? && AtRest(sent).labels.Some?
            && AtRest(sent).spec == SpecAtRest(RemovePodSpec(w.spec))
            && (OnlyMarker(AtRest(sent)) <==> OnlyLabel(w))
  {
    MarkedLabels(w.labels);
  }

  /** When an update of the removal pass strips, in terms of the workload that was fetched. */
  lemma RemovalStrips(cfg: OperatorConfig, w: Workload, lumigos: Listing)
    requires IsAtRest(w) && Try(cfg, Removing, w).Sends?
    ensures Strips(cfg, Try(cfg, Removing, w).workload, lumigos) <==>
              Depletes(w.spec) && OnlyLabel(w) && Acts(lumigos, w.kind)
  {
    SentForRemoval(cfg, w);
    RemovalFromReadBack(w.spec);
  }

  lemma InjectionNeverStrips(cfg: OperatorConfig, l: LumigoView, w: Workload, lumigos: Listing)
    requires Try(cfg, Injecting(l), w).Sends?
    ensures !Strips(cfg, Try(cfg, Injecting(l), w).workload, lumigos)
  {
    var sent := Try(cfg, Injecting(l), w).workload;
    LabelIsWritten(w.labels, VersionLabel(cfg.version));
    LabelIsWritten(sent.labels, VersionLabel(cfg.version));
    VersionLabelIsNoOptOut(cfg.version);
    assert AtRest(sent).AutoTrace() == VersionLabel(cfg.version);
  }

  lemma NextSafe(cfg: OperatorConfig, c: Cluster, step: Step)
    requires Consistent(c) && Safe(c)
    ensures Safe(Next(cfg, c, step)) <==> !Exposes(cfg, c, step)
  {
    match step
    case UserWrite(w, lumigos) => PutSafe(cfg, c, w, lumigos);
    case ControllerUpdate(worker, lumigos) =>
      if CanUpdate(c, worker) && Attempted(cfg, c, worker).Sends? {
        var w := c.tasks[worker].copy.value.workload;
        CurrentCopy(c, worker);
        PutSafe(cfg, c, Attempted(cfg, c, worker).workload, lumigos);
        match c.tasks[worker].pass
        case Removing => RemovalStrips(cfg, w, lumigos);
        case Injecting(l) => InjectionNeverStrips(cfg, l, w, lumigos);
      }
    case _ =>
  }

  /** Step `i` of the run exposes. */
  predicate ExposesAt(cfg: OperatorConfig, c: Cluster, steps: seq<Step>, i: nat)
    requires i < |steps|
  {
    Exposes(cfg, Run(cfg, c, steps[..i]), steps[i])
  }

  lemma SafeStep(cfg: OperatorConfig, c: Cluster, steps: seq<Step>, i: nat)
    requires Consistent(c) && i < |steps| && Safe(Run(cfg, c, steps[..i]))
    ensures Safe(Run(cfg, c, steps[..i + 1])) <==> !ExposesAt(cfg, c, steps, i)
  {
    PrefixStep(cfg, c, steps, i);
    RunKeepsConsistent(cfg, c, steps[..i]);
    NextSafe(cfg, Run(cfg, c, steps[..i]), steps[i]);
  }

  lemma {:induction false} SafeUpTo(cfg: OperatorConfig, c: Cluster, steps: seq<Step>, n: nat)
    requires Consistent(c) && Safe(c) && n <= |steps|
    requires forall i :: 0 <= i < |steps| ==> !ExposesAt(cfg, c, steps, i)
    ensures Safe(Run(cfg, c, steps[..n]))
    decreases n
  {
    if n > 0 {
      SafeUpTo(cfg, c, steps, n - 1);
      SafeStep(cfg, c, steps, n - 1);
    }
  }

  /** Over any run, in all interleavings: nothing that the removal pass could panic on is ever
      stored exactly if no step of the run exposes. */
  lemma SafeOverRuns(cfg: OperatorConfig, c: Cluster, steps: seq<Step>)
    requires Consistent(c) && Safe(c)
    ensures (forall i :: 0 <= i <= |steps| ==> Safe(Run(cfg, c, steps[..i])))
            <==> forall i :: 0 <= i < |steps| ==> !ExposesAt(cfg, c, steps, i)
  {
    if forall i :: 0 <= i <= |steps| ==> Safe(Run(cfg, c, steps[..i])) {
      forall i | 0 <= i < |steps| ensures !ExposesAt(cfg, c, steps, i) {
        SafeStep(cfg, c, steps, i);
      }
    }
    if forall i :: 0 <= i < |steps| ==> !ExposesAt(cfg, c, steps, i) {
      forall i | 0 <= i <= |steps| ensures Safe(Run(cfg, c, steps[..i])) {
        SafeUpTo(cfg, c, steps, i);
      }
    }
  }

  lemma SafeNeverPanics(cfg: OperatorConfig, c: Cluster, step: Step)
    requires Consistent(c) && Safe(c)
    ensures !PanicsAt(cfg, c, step)
  {
    if step.ControllerUpdate? && HasCopy(c, step.worker) {
      assert TaskConsistent(c, c.tasks[step.worker]);
      ExposedPanics(cfg, c.tasks[step.worker].copy.value.workload);
    }
  }

  /** Without an exposing step, no step of any run panics. */
  lemma NoPanicOverRuns(cfg: OperatorConfig, c: Cluster, steps: seq<Step>, i: nat)
    requires Consistent(c) && Safe(c) && i < |steps|
    requires forall j :: 0 <= j < |steps| ==> !ExposesAt(cfg, c, steps, j)
    ensures !PanicsAt(cfg, Run(cfg, c, steps[..i]), steps[i])
  {
    SafeUpTo(cfg, c, steps, i);
    RunKeepsConsistent(cfg, c, steps[..i]);
    SafeNeverPanics(cfg, Run(cfg, c, steps[..i]), steps[i]);
  }

  /** A worker that fetches the very version it has listed never panics. */
  lemma PanicTakesAnotherVersion(cfg: OperatorConfig, c: Cluster, steps: seq<Step>, step: Step)
    requires Consistent(c) && PanicsAt(cfg, Run(cfg, c, steps), step)
    ensures var t := Run(cfg, c, steps).tasks[step.worker];
            t.pass.Removing? && t.copy.value.version != t.listed.version
  {
    RunKeepsConsistent(cfg, c, steps);
    var t := Run(cfg, c, steps).tasks[step.worker];
    assert TaskConsistent(Run(cfg, c, steps), t);
    ExposedPanics(cfg, t.copy.value.workload);
  }

  /** The version that a write of `w` stores. */
  function Written(cfg: OperatorConfig, c: Cluster, w: Workload, lumigos: Listing): Stored
    requires Admit(cfg, lumigos, w).Admitted?
  {
    Stored(c.nextVersion, Admit(cfg, lumigos, w).workload)
  }

  lemma FetchingPanics(cfg: OperatorConfig, c: Cluster, worker: nat, found: Stored, lumigos: Listing)
    requires worker in c.tasks && c.tasks[worker].pass.Removing?
    requires found in c.history && found.workload.Key() == c.tasks[worker].Key()
    ensures PanicsAt(cfg, Next(cfg, c, ControllerGet(worker, found)), ControllerUpdate(worker, lumigos))
            <==> Exposed(found.workload)
  {
    ExposedPanics(cfg, found.workload);
  }

  /** Fetching what a write has just stored panics exactly if the write strips. */
  lemma WrittenPanics(cfg: OperatorConfig, c: Cluster, worker: nat, w: Workload, lumigos: Listing, later: Listing)
    requires worker in c.tasks && c.tasks[worker].pass.Removing? && w.Key() == c.tasks[worker].Key()
    requires Admit(cfg, lumigos, w).Admitted?
    ensures var c' := Next(cfg, Put(cfg, c, w, lumigos), ControllerGet(worker, Written(cfg, c, w, lumigos)));
            PanicsAt(cfg, c', ControllerUpdate(worker, later)) <==> Strips(cfg, w, lumigos)
  {
    AdmitKeeps(cfg, lumigos, w);
    AdmittedPanicsIffStrips(cfg, w, lumigos);
    FetchingPanics(cfg, Put(cfg, c, w, lumigos), worker, Written(cfg, c, w, lumigos), later);
  }

  /** After a user write to a workload that is on a removal list, the worker's Get and removal
      panic exactly if the write strips. */
  lemma StrippingPanics(cfg: OperatorConfig, c: Cluster, worker: nat, w: Workload, lumigos: Listing, later: Listing)
    requires worker in c.tasks && c.tasks[worker].pass.Removing? && w.Key() == c.tasks[worker].Key()
    requires Admit(cfg, lumigos, w).Admitted?
    ensures var steps := [UserWrite(w, lumigos), ControllerGet(worker, Written(cfg, c, w, lumigos))];
            PanicsAt(cfg, Run(cfg, c, steps), ControllerUpdate(worker, later)) <==> Strips(cfg, w, lumigos)
  {
    TwoSteps(cfg, c, UserWrite(w, lumigos), ControllerGet(worker, Written(cfg, c, w, lumigos)));
    WrittenPanics(cfg, c, worker, w, lumigos, later);
  }

  lemma UpdateIsPut(cfg: OperatorConfig, c: Cluster, worker: nat, sent: Workload, lumigos: Listing)
    requires CanUpdate(c, worker) && Attempted(cfg, c, worker) == Sends(sent)
    ensures Next(cfg, c, ControllerUpdate(worker, lumigos)) == Put(cfg, c, sent, lumigos)
  {}

  lemma CopyFacts(cfg: OperatorConfig, c: Cluster, worker: nat, sent: Workload)
    requires Consistent(c) && CanUpdate(c, worker) && Attempted(cfg, c, worker) == Sends(sent)
    ensures IsAtRest(c.tasks[worker].copy.value.workload) && sent.Key() == c.tasks[worker].Key()
  {
    CurrentCopy(c, worker);
    TryKeepsKey(cfg, c.tasks[worker].pass, c.tasks[worker].copy.value.workload);
  }

  /** No other writer is needed: if the response to the worker's own update is lost, its retry
      panics exactly if a container is left without an environment, the auto-trace label was the
      only one, and the webhook has consumed the marker. */
  lemma RetryPanics(cfg: OperatorConfig, c: Cluster, worker: nat, sent: Workload, lumigos: Listing, later: Listing)
    requires Consistent(c) && CanUpdate(c, worker) && c.tasks[worker].pass.Removing?
    requires Attempted(cfg, c, worker) == Sends(sent) && Admit(cfg, lumigos, sent).Admitted?
    ensures var w := c.tasks[worker].copy.value.workload;
            var steps := [ControllerUpdate(worker, lumigos), ControllerGet(worker, Written(cfg, c, sent, lumigos))];
            PanicsAt(cfg, Run(cfg, c, steps), ControllerUpdate(worker, later)) <==>
              Depletes(w.spec) && OnlyLabel(w) && Acts(lumigos, w.kind)
  {
    CopyFacts(cfg, c, worker, sent);
    UpdateIsPut(cfg, c, worker, sent, lumigos);
    TwoSteps(cfg, c, ControllerUpdate(worker, lumigos), ControllerGet(worker, Written(cfg, c, sent, lumigos)));
    WrittenPanics(cfg, c, worker, sent, lumigos, later);
    RemovalStrips(cfg, c.tasks[worker].copy.value.workload, lumigos);
  }

  lemma TwoSteps(cfg: OperatorConfig, c: Cluster, a: Step, b: Step)
    ensures Run(cfg, c, [a, b]) == Next(cfg, Next(cfg, c, a), b)
  {
    assert [a, b][..1] == [a] && [a][..0] == [];
    assert Run(cfg, c, [a]) == Next(cfg, c, a);
  }

  lemma RunThen(cfg: OperatorConfig, c: Cluster, steps: seq<Step>, step: Step)
    ensures Run(cfg, c, steps + [step]) == Next(cfg, Run(cfg, c, steps), step)
  {
    assert (steps + [step])[..|steps|] == steps;
  }

  lemma {:induction false} RunsJoin(cfg: OperatorConfig, c: Cluster, a: seq<Step>, b: seq<Step>)
    ensures Run(cfg, c, a + b) == Run(cfg, Run(cfg, c, a), b)
  {
    if b == [] {
      assert a + b == a;
    } else {
      assert (a + b)[..|a + b| - 1] == a + b[..|b| - 1];
      RunsJoin(cfg, c, a, b[..|b| - 1]);
    }
  }

  // ---------------------------------------------------------------- runs that panic

  function Labelled(kind: Kind, spec: PodSpec): Workload {
    Workload(kind, "ns", "w", Some(map[AUTO_TRACE := "true"]), [], None, spec)
  }

  /** Create a workload and put what was stored on a removal list. */
  lemma ListedForRemoval(cfg: OperatorConfig, w: Workload, lumigos: Listing) returns (steps: seq<Step>)
    requires Admit(cfg, lumigos, w).Admitted? && Lists(Removing, Admit(cfg, lumigos, w).workload)
    ensures var c, s := Run(cfg, EMPTY, steps), Written(cfg, EMPTY, w, lumigos);
            c == Cluster(map[w.Key() := s], {s}, 1, map[0 := Task(Removing, s, None)]) && Consistent(c)
    ensures forall i :: 0 < i < |steps| ==> !steps[i].UserWrite?
  {
    steps := [UserWrite(w, lumigos), ControllerList(0, Removing, w.Key())];
    TwoSteps(cfg, EMPTY, steps[0], steps[1]);
    RunKeepsConsistent(cfg, EMPTY, steps);
  }

  lemma TrueIsNoOptOut()
    ensures "true" != "false" && "true" != SKIP_NEXT_INJECTOR && ToLower("true") != "false"
  {
    assert |"true"| == 4 && |"false"| == 5 && |ToLower("true")| == 4 && |SKIP_NEXT_INJECTOR| == 18;
  }

  lemma LabelledDaemonSetIsListed(cfg: OperatorConfig, lumigos: Listing, spec: PodSpec)
    ensures var created := Admit(cfg, lumigos, Labelled(DaemonSet, spec));
            && created.Admitted? && Lists(Removing, created.workload)
            && created.workload.Key() == Labelled(DaemonSet, spec).Key()
  {
    DaemonSetsAreStored(cfg, lumigos, Labelled(DaemonSet, spec));
    TrueIsNoOptOut();
    assert AUTO_TRACE in map[AUTO_TRACE := "true"];
  }

  lemma BareDaemonSetStrips(cfg: OperatorConfig, lumigos: Listing, spec: PodSpec)
    requires RemovePodSpec(SpecAtRest(spec)) != SpecAtRest(spec)
    ensures var bare := Labelled(DaemonSet, spec).(labels := None);
            Strips(cfg, bare, lumigos) && Admit(cfg, lumigos, bare).Admitted?
  {
    DaemonSetsAreStored(cfg, lumigos, Labelled(DaemonSet, spec).(labels := None));
  }

  /** The panic is reachable, for every pod spec that removal would change and whatever Lumigos
      there are: a labelled DaemonSet is created and listed for removal, a user takes its labels
      away, and the worker goes on. */
  lemma PanicIsReachable(cfg: OperatorConfig, lumigos: Listing, spec: PodSpec) returns (steps: seq<Step>)
    requires RemovePodSpec(SpecAtRest(spec)) != SpecAtRest(spec)
    ensures PanicsAt(cfg, Run(cfg, EMPTY, steps), ControllerUpdate(0, lumigos))
  {
    var w, bare := Labelled(DaemonSet, spec), Labelled(DaemonSet, spec).(labels := None);
    LabelledDaemonSetIsListed(cfg, lumigos, spec);
    BareDaemonSetStrips(cfg, lumigos, spec);
    var setup := ListedForRemoval(cfg, w, lumigos);
    var c := Run(cfg, EMPTY, setup);
    StrippingPanics(cfg, c, 0, bare, lumigos, lumigos);
    var more := [UserWrite(bare, lumigos), ControllerGet(0, Written(cfg, c, bare, lumigos))];
    steps := setup + more;
    RunsJoin(cfg, EMPTY, setup, more);
  }

  lemma CreatedIsSelected(cfg: OperatorConfig, l: LumigoView, spec: PodSpec)
    requires l.active && l.injectionEnabled != Some(false)
    ensures var w := Labelled(Deployment, spec);
            var created := Admit(cfg, Listed([l]), w);
            && created.Admitted? && Lists(Removing, created.workload) && OnlyLabel(created.workload)
            && created.workload.Key() == w.Key() && SkipsReplicaSet(created.workload).None?
            && created.workload.spec == SpecAtRest(InjectPodSpec(MutatorFromSpec(cfg, l), SpecAtRest(spec)))
  {
    var m, labels := MutatorFromSpec(cfg, l), Some(map[AUTO_TRACE := "true"]);
    VersionLabelIsNoOptOut(cfg.version);
    TrueIsNoOptOut();
    ReadBackIsReinjected(m, spec);
    assert AUTO_TRACE in labels.value && LabelsAtRest(labels) == labels;
    LabelIsWritten(labels, m.labelValue);
    LabelIsWritten(WithLabel(labels, m.labelValue), m.labelValue);
    assert WithLabel(labels, m.labelValue).value.Keys == {AUTO_TRACE};
    assert m.labelValue != "false" by { assert |m.labelValue| >= 17 && |"false"| == 5; }
  }

  lemma EmptiedStaysEmptied(m: Mutator, c: Container)
    ensures EnvironmentEmptied(ContainerAtRest(InjectContainer(m, ContainerAtRest(c)))) <==> EnvironmentEmptied(c)
  {
    var d := InjectContainer(m, ContainerAtRest(c));
    EnvRemovalAbsorbs(m, c.name, c.env.Elems());
    FilterEmpty(KeepEnv, c.env.Elems());
    FilterEmpty(KeepEnv, d.env.Elems());
    assert ContainerAtRest(d).env.Elems() == d.env.Elems();
  }

  lemma InjectionDepletesNothing(m: Mutator, s: PodSpec)
    ensures Depletes(SpecAtRest(InjectPodSpec(m, SpecAtRest(s)))) <==> Depletes(s)
  {
    var cs, t := s.containers.Elems(), SpecAtRest(InjectPodSpec(m, SpecAtRest(s)));
    assert EachAtRest([]) == [];
    assert t.containers.Elems() == EachAtRest(InjectContainers(m, EachAtRest(cs)));
    forall i | 0 <= i < |cs| ensures EnvironmentEmptied(t.containers.Elems()[i]) <==> EnvironmentEmptied(cs[i]) {
      EmptiedStaysEmptied(m, cs[i]);
    }
  }

  lemma CarriedIsRemoved(m: Mutator, s: PodSpec)
    requires Carries(m, s)
    ensures RemovePodSpec(s) != s
  {
    RemovedCarriesNothing(m, s);
    CarriesAtRest(m, s);
  }

  /** Create a Deployment, list it for removal and fetch it. */
  lemma FetchedForRemoval(cfg: OperatorConfig, w: Workload, lumigos: Listing) returns (steps: seq<Step>)
    requires Admit(cfg, lumigos, w).Admitted? && Lists(Removing, Admit(cfg, lumigos, w).workload)
    ensures var c, s := Run(cfg, EMPTY, steps), Written(cfg, EMPTY, w, lumigos);
            && c == Cluster(map[w.Key() := s], {s}, 1, map[0 := Task(Removing, s, Some(s))]) && Consistent(c)
            && CanUpdate(c, 0)
    ensures forall i :: 0 < i < |steps| ==> !steps[i].UserWrite?
  {
    var s := Written(cfg, EMPTY, w, lumigos);
    AdmitKeeps(cfg, lumigos, w);
    var setup := ListedForRemoval(cfg, w, lumigos);
    RunThen(cfg, EMPTY, setup, ControllerGet(0, s));
    steps := setup + [ControllerGet(0, s)];
    RunKeepsConsistent(cfg, EMPTY, steps);
    FetchStep(cfg, s, w.Key());
  }

  lemma FetchStep(cfg: OperatorConfig, s: Stored, k: Key)
    requires s.workload.Key() == k
    ensures var c := Cluster(map[k := s], {s}, 1, map[0 := Task(Removing, s, None)]);
            var c' := Next(cfg, c, ControllerGet(0, s));
            c' == Cluster(map[k := s], {s}, 1, map[0 := Task(Removing, s, Some(s))]) && CanUpdate(c', 0)
  {}

  lemma CreatedIsSent(cfg: OperatorConfig, l: LumigoView, spec: PodSpec) returns (sent: Workload)
    requires l.active && l.injectionEnabled != Some(false) && Depletes(spec)
    ensures var w := Admit(cfg, Listed([l]), Labelled(Deployment, spec)).workload;
            && Try(cfg, Removing, w) == Sends(sent) && Depletes(w.spec) && OnlyLabel(w) && w.kind == Deployment
            && Admit(cfg, Listed([l]), sent).Admitted?
  {
    var m := MutatorFromSpec(cfg, l);
    CreatedIsSelected(cfg, l, spec);
    InjectionDepletesNothing(m, spec);
    InjectedCarries(m, SpecAtRest(spec));
    CarriedIsRemoved(m, SpecAtRest(InjectPodSpec(m, SpecAtRest(spec))));
    sent := Try(cfg, Removing, Admit(cfg, Listed([l]), Labelled(Deployment, spec)).workload).workload;
    AdmitKeeps(cfg, Listed([l]), sent);
  }

  lemma RetryRun(cfg: OperatorConfig, w: Workload, sent: Workload, lumigos: Listing) returns (steps: seq<Step>)
    requires Admit(cfg, lumigos, w).Admitted? && Admit(cfg, lumigos, sent).Admitted?
    requires var created := Admit(cfg, lumigos, w).workload;
             && Lists(Removing, created) && Try(cfg, Removing, created) == Sends(sent)
             && Depletes(created.spec) && OnlyLabel(created) && Acts(lumigos, created.kind)
    ensures PanicsAt(cfg, Run(cfg, EMPTY, steps), ControllerUpdate(0, lumigos))
    ensures forall i :: 0 < i < |steps| ==> !steps[i].UserWrite?
  {
    var fetch := FetchedForRemoval(cfg, w, lumigos);
    var c := Run(cfg, EMPTY, fetch);
    RetryPanics(cfg, c, 0, sent, lumigos, lumigos);
    var more := [ControllerUpdate(0, lumigos), ControllerGet(0, Written(cfg, c, sent, lumigos))];
    steps := fetch + more;
    RunsJoin(cfg, EMPTY, fetch, more);
  }

  /** Nor does it take a user: for every pod spec with a container that has no variables of its
      own, a Deployment is created in the namespace of an injecting Lumigo and listed for removal,
      the worker's update lands but its response is lost, and the retry panics. */
  lemma LostResponsePanics(cfg: OperatorConfig, l: LumigoView, spec: PodSpec) returns (steps: seq<Step>)
    requires l.active && l.injectionEnabled != Some(false) && Depletes(spec)
    ensures PanicsAt(cfg, Run(cfg, EMPTY, steps), ControllerUpdate(0, Listed([l])))
    ensures forall i :: 0 < i < |steps| ==> !steps[i].UserWrite?
  {
    CreatedIsSelected(cfg, l, spec);
    var sent := CreatedIsSent(cfg, l, spec);
    steps := RetryRun(cfg, Labelled(Deployment, spec), sent, Listed([l]));
  }

  // ---------------------------------------------------------------- stale reads

  /** A stale Get can also make the pass skip a workload: on an older version that removal would
      not change, the worker finds nothing to do and reports success, whatever is stored. */
  lemma StaleReadSkipsRemoval(cfg: OperatorConfig, c: Cluster, worker: nat, found: Stored, lumigos: Listing)
    requires worker in c.tasks && c.tasks[worker].pass.Removing?
    requires found in c.history && found.workload.Key() == c.tasks[worker].Key()
    requires SkipsReplicaSet(found.workload).None?
    ensures var c' := Next(cfg, c, ControllerGet(worker, found));
            && (Attempted(cfg, c', worker).NothingToDo? <==> UntouchedByRemoval(found.workload.spec))
            && (UntouchedByRemoval(found.workload.spec) ==>
                  Next(cfg, c', ControllerUpdate(worker, lumigos)).store == c.store)
  {
    RemovalReportsNothing(found.workload.spec);
  }

  // ---------------------------------------------------------------- the marker that stays

  /** Another removal would leave the workload as it is, as stored. */
  predicate Steady(cfg: OperatorConfig, w: Workload) {
    var t := Try(cfg, Removing, w);
    t.NothingToDo? || (t.Sends? && AtRest(t.workload) == w)
  }

  /** The webhook does not handle DaemonSets: they are stored as they are written. */
  lemma DaemonSetsAreStored(cfg: OperatorConfig, lumigos: Listing, w: Workload)
    requires w.kind.DaemonSet?
    ensures Admit(cfg, lumigos, w) == Admitted(AtRest(w))
  {
    StoringOnceIsEnough(w);
  }

  /** This is how the deletion pass leaves a DaemonSet that it changed, with any listing. */
  lemma DaemonSetIsLeftMarked(cfg: OperatorConfig, lumigos: Listing, w: Workload)
    requires IsAtRest(w) && w.kind.DaemonSet? && Selected(w) && RemovePodSpec(w.spec) != w.spec
    ensures var w' := AfterPass(cfg, lumigos, w);
            w'.AutoTrace() == SKIP_NEXT_INJECTOR && Steady(cfg, w')
  {
    PassOutcome(cfg, lumigos, w);
    LabelRewrites(w.labels);
    RetryAfterLostResponse(cfg, lumigos, w);
    var t := Try(cfg, Removing, AfterPass(cfg, lumigos, w));
    if t.Sends? {
      DaemonSetsAreStored(cfg, lumigos, t.workload);
    }
  }

  /** A DaemonSet that carries the marker, is steady, and is on no injection list. */
  ghost predicate KeepsMarker(cfg: OperatorConfig, c: Cluster, k: Key, w: Workload) {
    && k.kind.DaemonSet? && k in c.store && c.store[k].workload == w
    && w.AutoTrace() == SKIP_NEXT_INJECTOR && Steady(cfg, w)
    && forall i :: i in c.tasks && c.tasks[i].Key() == k ==> c.tasks[i].pass.Removing?
  }

  predicate Touches(step: Step, k: Key) {
    (step.UserWrite? && step.workload.Key() == k) || (step.UserDelete? && step.key == k)
  }

  lemma UpdateKeepsMarker(cfg: OperatorConfig, c: Cluster, k: Key, w: Workload, step: Step)
    requires Consistent(c) && KeepsMarker(cfg, c, k, w) && step.ControllerUpdate?
    ensures KeepsMarker(cfg, Next(cfg, c, step), k, w)
  {
    if CanUpdate(c, step.worker) && Attempted(cfg, c, step.worker).Sends? {
      var t := c.tasks[step.worker];
      CurrentCopy(c, step.worker);
      TryKeepsKey(cfg, t.pass, t.copy.value.workload);
      if t.Key() == k {
        DaemonSetsAreStored(cfg, step.lumigos, Attempted(cfg, c, step.worker).workload);
      }
    }
  }

  lemma NextKeepsMarker(cfg: OperatorConfig, c: Cluster, k: Key, w: Workload, step: Step)
    requires Consistent(c) && KeepsMarker(cfg, c, k, w) && !Touches(step, k)
    ensures KeepsMarker(cfg, Next(cfg, c, step), k, w)
  {
    if step.ControllerUpdate? {
      UpdateKeepsMarker(cfg, c, k, w, step);
    }
  }

  /** A DaemonSet that is left with the marker is never instrumented again by any later Lumigo,
      injection pass or removal pass: its content stays exactly as it is until a user writes
      it, however often removal passes store it anew. */
  lemma {:induction false} MarkedIsNeverReinjected(
    cfg: OperatorConfig, c: Cluster, k: Key, w: Workload, steps: seq<Step>)
    requires Consistent(c) && KeepsMarker(cfg, c, k, w)
    requires forall i :: 0 <= i < |steps| ==> !Touches(steps[i], k)
    ensures KeepsMarker(cfg, Run(cfg, c, steps), k, w)
  {
    if steps != [] {
      var before := steps[..|steps| - 1];
      MarkedIsNeverReinjected(cfg, c, k, w, before);
      RunKeepsConsistent(cfg, c, before);
      NextKeepsMarker(cfg, Run(cfg, c, before), k, w, steps[|steps| - 1]);
    }
  }
}
