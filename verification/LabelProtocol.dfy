/** Users, the webhook and the controller share the `lumigo.auto-trace` label. This module
    runs them against one API server with optimistic concurrency, in every interleaving. */
module LabelProtocol {
  import opened Sequences
  import opened PodSpecs
  import opened Injection
  import opened Workloads
  import opened StoredForm
  import opened InjectorWebhook
  import opened Passes

  datatype Stored = Stored(version: nat, workload: Workload)

  /** A controller worker on its way through one workload: which pass it runs, the workload as
      it was listed, and the copy that it holds between its Get and its Update. */
  datatype Task = Task(pass: Pass, listed: Stored, copy: Option<Stored>) {
    function Key(): Key { listed.workload.Key() }
  }

  /** The API server's objects, everything that was ever stored, the next resource version, and
      the controller's workers. */
  datatype Cluster = Cluster(store: map<Key, Stored>, history: set<Stored>, nextVersion: nat, tasks: map<nat, Task>)

  const EMPTY := Cluster(map[], {}, 0, map[])

  /** Listings go to the API server, but the controller's Get is served from a cache that may
      lag behind: it returns any version of the object so far. */
  datatype Step =
    | UserWrite(workload: Workload, lumigos: Listing)
    | UserDelete(key: Key)
    | ControllerList(worker: nat, pass: Pass, key: Key)
    | ControllerGet(worker: nat, found: Stored)
    | ControllerUpdate(worker: nat, lumigos: Listing)

  /** A write that has passed optimistic locking is admitted by the webhook and stored. */
  function Put(cfg: OperatorConfig, c: Cluster, w: Workload, lumigos: Listing): Cluster {
    match Admit(cfg, lumigos, w)
    case Denied => c
    case Admitted(w') =>
      var s := Stored(c.nextVersion, w');
      c.(store := c.store[w.Key() := s], history := c.history + {s}, nextVersion := c.nextVersion + 1)
  }

  predicate HasCopy(c: Cluster, worker: nat) { worker in c.tasks && c.tasks[worker].copy.Some? }

  /** The worker holds a copy, and nobody has written the object since. */
  predicate CanUpdate(c: Cluster, worker: nat) {
    && HasCopy(c, worker) && c.tasks[worker].Key() in c.store
    && c.store[c.tasks[worker].Key()].version == c.tasks[worker].copy.value.version
  }

  /** What the worker makes of its copy. */
  function Attempted(cfg: OperatorConfig, c: Cluster, worker: nat): Attempt
    requires HasCopy(c, worker)
  {
    Try(cfg, c.tasks[worker].pass, c.tasks[worker].copy.value.workload)
  }

  /** One attempt of the retried closure: mutate the copy and, if that changed anything,
      update. Failed mutations, stale copies and panics leave the cluster as it was. */
  function Next(cfg: OperatorConfig, c: Cluster, step: Step): Cluster {
    match step
    case UserWrite(w, lumigos) => Put(cfg, c, w, lumigos)
    case UserDelete(k) => c.(store := c.store - {k})
    case ControllerList(worker, pass, k) =>
      if k in c.store && Lists(pass, c.store[k].workload)
      then c.(tasks := c.tasks[worker := Task(pass, c.store[k], None)]) else c
    case ControllerGet(worker, found) =>
      if worker in c.tasks && found in c.history && found.workload.Key() == c.tasks[worker].Key()
      then c.(tasks := c.tasks[worker := c.tasks[worker].(copy := Some(found))]) else c
    case ControllerUpdate(worker, lumigos) =>
      if CanUpdate(c, worker) && Attempted(cfg, c, worker).Sends?
      then Put(cfg, c, Attempted(cfg, c, worker).workload, lumigos) else c
  }

  function Run(cfg: OperatorConfig, c: Cluster, steps: seq<Step>): Cluster {
    if steps == [] then c else Next(cfg, Run(cfg, c, steps[..|steps| - 1]), steps[|steps| - 1])
  }

  // ---------------------------------------------------------------- what every step keeps

  ghost predicate TaskConsistent(c: Cluster, t: Task) {
    && Lists(t.pass, t.listed.workload) && t.listed in c.history
    && (t.copy.Some? ==> t.copy.value in c.history && t.copy.value.workload.Key() == t.Key())
  }

  /** Objects sit under their own key and as they are stored, a version is never given to two
      contents, and workers hold what they listed and what they fetched. */
  ghost predicate Consistent(c: Cluster) {
    && (forall k :: k in c.store ==> c.store[k].workload.Key() == k && c.store[k] in c.history)
    && (forall s :: s in c.history ==> s.version < c.nextVersion)
    && (forall s {:trigger IsAtRest(s.workload)} :: s in c.history ==> IsAtRest(s.workload))
    && (forall s, t :: s in c.history && t in c.history && s.version == t.version ==> s == t)
    && (forall i :: i in c.tasks ==> TaskConsistent(c, c.tasks[i]))
  }

  lemma PutKeepsConsistent(cfg: OperatorConfig, c: Cluster, w: Workload, lumigos: Listing)
    requires Consistent(c)
    ensures Consistent(Put(cfg, c, w, lumigos))
  {
    AdmitKeeps(cfg, lumigos, w);
    var c' := Put(cfg, c, w, lumigos);
    forall i | i in c'.tasks ensures TaskConsistent(c', c'.tasks[i]) {
      assert TaskConsistent(c, c.tasks[i]);
    }
  }

  lemma ReadKeepsConsistent(cfg: OperatorConfig, c: Cluster, step: Step)
    requires Consistent(c) && (step.UserDelete? || step.ControllerList? || step.ControllerGet?)
    ensures Consistent(Next(cfg, c, step))
  {
    var c' := Next(cfg, c, step);
    forall i | i in c'.tasks ensures TaskConsistent(c', c'.tasks[i]) {
      if i in c.tasks { assert TaskConsistent(c, c.tasks[i]); }
    }
  }

  lemma NextKeepsConsistent(cfg: OperatorConfig, c: Cluster, step: Step)
    requires Consistent(c)
    ensures Consistent(Next(cfg, c, step))
  {
    match step
    case UserWrite(w, lumigos) => PutKeepsConsistent(cfg, c, w, lumigos);
    case ControllerUpdate(worker, lumigos) =>
      if CanUpdate(c, worker) && Attempted(cfg, c, worker).Sends? {
        PutKeepsConsistent(cfg, c, Attempted(cfg, c, worker).workload, lumigos);
      }
    case _ => ReadKeepsConsistent(cfg, c, step);
  }

  lemma {:induction false} RunKeepsConsistent(cfg: OperatorConfig, c: Cluster, steps: seq<Step>)
    requires Consistent(c)
    ensures Consistent(Run(cfg, c, steps))
  {
    if steps != [] {
      RunKeepsConsistent(cfg, c, steps[..|steps| - 1]);
      NextKeepsConsistent(cfg, Run(cfg, c, steps[..|steps| - 1]), steps[|steps| - 1]);
    }
  }

  /** A copy that can be updated is the stored object. */
  lemma CurrentCopy(c: Cluster, worker: nat)
    requires Consistent(c) && CanUpdate(c, worker)
    ensures c.tasks[worker].copy.value == c.store[c.tasks[worker].Key()]
  {
    assert TaskConsistent(c, c.tasks[worker]);
  }

  lemma PrefixStep(cfg: OperatorConfig, c: Cluster, steps: seq<Step>, i: nat)
    requires i < |steps|
    ensures Run(cfg, c, steps[..i + 1]) == Next(cfg, Run(cfg, c, steps[..i]), steps[i])
  {
    assert steps[..i + 1][..i] == steps[..i];
  }

  // ---------------------------------------------------------------- the label tells the truth

  predicate VersionLabelled(w: Workload) { VERSION_PREFIX <= w.AutoTrace() }

  ghost predicate Instrumented(s: PodSpec) { exists m :: Carries(m, s) }

  ghost predicate Truthful(w: Workload) { VersionLabelled(w) ==> Instrumented(w.spec) }

  ghost predicate LabelsTruthful(c: Cluster) {
    forall k :: k in c.store ==> Truthful(c.store[k].workload)
  }

  /** A write that does not make the label lie: it is turned down, it puts a version label on
      instrumented specs only, or the webhook instruments what it writes. */
  ghost predicate HonestWrite(cfg: OperatorConfig, w: Workload, lumigos: Listing) {
    || (HandlesKind(w.kind) && lumigos.ListFailed?)
    || Truthful(w)
    || (ActingMutator(cfg, lumigos, AtRest(w)).Some? && SkipsReplicaSet(w).None?)
  }

  ghost predicate Honest(cfg: OperatorConfig, step: Step) {
    step.UserWrite? ==> HonestWrite(cfg, step.workload, step.lumigos)
  }

  lemma SkipMarkerIsNoVersion()
    ensures !(VERSION_PREFIX <= SKIP_NEXT_INJECTOR) && !(VERSION_PREFIX <= "")
  {
    assert VERSION_PREFIX[0] != SKIP_NEXT_INJECTOR[0];
  }

  lemma TruthfulAtRest(w: Workload)
    ensures Truthful(AtRest(w)) <==> Truthful(w)
  {
    assert AtRest(w).AutoTrace() == w.AutoTrace();
    if Instrumented(w.spec) {
      var m :| Carries(m, w.spec);
      CarriesAtRest(m, w.spec);
    }
    if Instrumented(SpecAtRest(w.spec)) {
      var m :| Carries(m, SpecAtRest(w.spec));
      CarriesAtRest(m, w.spec);
    }
  }

  /** A version label is no opt-out and no marker, so injection goes ahead. */
  lemma VersionLabelInjects(m: Mutator, w: Workload)
    requires VersionLabelled(w) && SkipsReplicaSet(w).None?
    ensures ProcessResourceInjection(m, w).spec == InjectPodSpec(m, w.spec)
  {
    SkipMarkerIsNoVersion();
    assert |ToLower(w.AutoTrace())| >= |VERSION_PREFIX| == 17 && |"false"| == 5;
  }

  lemma MutationIsTruthful(m: Mutator, w: Workload)
    ensures InjectInto(m, w).Done? && InjectInto(m, w).occurred ==> Truthful(InjectInto(m, w).workload)
  {
    InjectedCarries(m, w.spec);
  }

  lemma ProcessedTruthful(m: Mutator, w: Workload)
    ensures Truthful(ProcessResourceInjection(m, w)) <==> Truthful(w) || SkipsReplicaSet(w).None?
  {
    MutationIsTruthful(m, w);
    SkipMarkerIsNoVersion();
    if VersionLabelled(w) && SkipsReplicaSet(w).None? {
      VersionLabelInjects(m, w);
      InjectedCarries(m, w.spec);
    }
  }

  lemma HandledTruthful(cfg: OperatorConfig, w: Workload, lumigos: Listing)
    requires Handle(cfg, lumigos, w).Admitted?
    ensures Truthful(Handle(cfg, lumigos, w).workload) <==>
              Truthful(w) || (ActingMutator(cfg, lumigos, w).Some? && SkipsReplicaSet(w).None?)
  {
    var m := ActingMutator(cfg, lumigos, w);
    if m.Some? {
      ProcessedTruthful(m.value, w);
    }
  }

  /** Exactly when a write leaves the labels truthful. */
  lemma PutTruthful(cfg: OperatorConfig, c: Cluster, w: Workload, lumigos: Listing)
    requires LabelsTruthful(c)
    ensures LabelsTruthful(Put(cfg, c, w, lumigos)) <==> HonestWrite(cfg, w, lumigos)
  {
    AdmitKeeps(cfg, lumigos, w);
    var a, c' := Handle(cfg, lumigos, AtRest(w)), Put(cfg, c, w, lumigos);
    if a.Admitted? {
      TruthfulAtRest(w);
      HandledTruthful(cfg, AtRest(w), lumigos);
      TruthfulAtRest(a.workload);
      assert c'.store[w.Key()].workload == AtRest(a.workload);
    }
  }

  /** What the controller sends is always truthful. */
  lemma SentIsTruthful(cfg: OperatorConfig, pass: Pass, w: Workload)
    requires Try(cfg, pass, w).Sends?
    ensures Truthful(Try(cfg, pass, w).workload)
  {
    SkipMarkerIsNoVersion();
    if pass.Injecting? {
      MutationIsTruthful(MutatorFromSpec(cfg, pass.lumigo), w);
    }
  }

  /** Of all steps of users, webhook and controller, only a dishonest write makes a label lie. */
  lemma NextTruthful(cfg: OperatorConfig, c: Cluster, step: Step)
    requires LabelsTruthful(c)
    ensures LabelsTruthful(Next(cfg, c, step)) <==> Honest(cfg, step)
  {
    match step
    case UserWrite(w, lumigos) => PutTruthful(cfg, c, w, lumigos);
    case ControllerUpdate(worker, lumigos) =>
      if CanUpdate(c, worker) && Attempted(cfg, c, worker).Sends? {
        SentIsTruthful(cfg, c.tasks[worker].pass, c.tasks[worker].copy.value.workload);
        PutTruthful(cfg, c, Attempted(cfg, c, worker).workload, lumigos);
      }
    case _ =>
  }

  lemma {:induction false} HonestRun(cfg: OperatorConfig, c: Cluster, steps: seq<Step>)
    requires LabelsTruthful(c) && forall i :: 0 <= i < |steps| ==> Honest(cfg, steps[i])
    ensures LabelsTruthful(Run(cfg, c, steps))
  {
    if steps != [] {
      HonestRun(cfg, c, steps[..|steps| - 1]);
      NextTruthful(cfg, Run(cfg, c, steps[..|steps| - 1]), steps[|steps| - 1]);
    }
  }

  /** Over any run from a truthful cluster, in all interleavings: a version label means an
      instrumented pod spec in every state that the run goes through exactly if every user
      write of the run is honest. */
  lemma LabelTruthOverRuns(cfg: OperatorConfig, c: Cluster, steps: seq<Step>)
    requires LabelsTruthful(c)
    ensures (forall i :: 0 <= i <= |steps| ==> LabelsTruthful(Run(cfg, c, steps[..i])))
            <==> forall i :: 0 <= i < |steps| ==> Honest(cfg, steps[i])
  {
    if forall i :: 0 <= i <= |steps| ==> LabelsTruthful(Run(cfg, c, steps[..i])) {
      forall i | 0 <= i < |steps| ensures Honest(cfg, steps[i]) {
        PrefixStep(cfg, c, steps, i);
        NextTruthful(cfg, Run(cfg, c, steps[..i]), steps[i]);
      }
    }
    if forall i :: 0 <= i < |steps| ==> Honest(cfg, steps[i]) {
      forall i | 0 <= i <= |steps| ensures LabelsTruthful(Run(cfg, c, steps[..i])) {
        HonestRun(cfg, c, steps[..i]);
      }
    }
  }

  /** Ordinary writes are honest: any edit of a labelled workload that a mutator acts on, a
      write without a version label, an instrumented manifest that is applied again, stored
      form or not, and a write that keeps the spec of a truthful object. */
  lemma OrdinaryWritesAreHonest(cfg: OperatorConfig, c: Cluster, w: Workload, lumigos: Listing)
    requires LabelsTruthful(c)
    requires || !VersionLabelled(w)
             || (ActingMutator(cfg, lumigos, AtRest(w)).Some? && SkipsReplicaSet(w).None?)
             || (exists m, s: PodSpec :: w.spec == InjectPodSpec(m, s) || w.spec == SpecAtRest(InjectPodSpec(m, s)))
             || (w.Key() in c.store && VersionLabelled(c.store[w.Key()].workload)
                 && c.store[w.Key()].workload.spec == w.spec)
    ensures HonestWrite(cfg, w, lumigos) && LabelsTruthful(Put(cfg, c, w, lumigos))
  {
    if m, s: PodSpec :| w.spec == InjectPodSpec(m, s) || w.spec == SpecAtRest(InjectPodSpec(m, s)) {
      InjectedCarries(m, s);
    }
    PutTruthful(cfg, c, w, lumigos);
  }

  /** A forged label on a spec that is not instrumented lies at once, for every kind, exactly if
      the write is admitted and no mutator takes care of the workload. */
  lemma ForgedLabelLies(cfg: OperatorConfig, c: Cluster, w: Workload, lumigos: Listing)
    requires LabelsTruthful(c) && VersionLabelled(w) && !Instrumented(w.spec)
    ensures !LabelsTruthful(Next(cfg, c, UserWrite(w, lumigos))) <==>
              && !(HandlesKind(w.kind) && lumigos.ListFailed?)
              && (!Acts(lumigos, w.kind) || SkipsReplicaSet(w).Some?)
    ensures !LabelsTruthful(Next(cfg, c, UserWrite(w, Listed([]))))
  {
    PutTruthful(cfg, c, w, lumigos);
    PutTruthful(cfg, c, w, Listed([]));
    assert AtRest(w).AutoTrace() == w.AutoTrace();
    assert |ToLower(w.AutoTrace())| >= |VERSION_PREFIX| == 17 && |"true"| == 4;
    ActsOnOthers(cfg, lumigos, AtRest(w));
    ActsOnOthers(cfg, Listed([]), AtRest(w));
  }
}
