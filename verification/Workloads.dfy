/** Workload resources, their `lumigo.auto-trace` label, and the two mutators applied to a
    whole resource. */
module Workloads {
  import opened Sequences
  import opened GroupVersions
  import opened PodSpecs
  import opened Injection

  const AUTO_TRACE := "lumigo.auto-trace"
  const ENABLE_TRACES := "lumigo.enable-traces"
  const ENABLE_LOGS := "lumigo.enable-logs"
  const TOKEN_SECRET := "lumigo.token-secret"
  const TOKEN_KEY := "lumigo.token-key"
  const VERSION_PREFIX := "lumigo-operator.v"
  const SKIP_NEXT_INJECTOR := "skip-next-injector"

  datatype Kind = DaemonSet | Deployment | ReplicaSet | StatefulSet | CronJob | Job

  datatype OwnerReference = OwnerReference(apiVersion: string, kind: string)

  /** `None` is a nil label map: reading it is harmless, writing to it panics. */
  type Labels = Option<map<string, string>>

  datatype Workload = Workload(
    kind: Kind,
    namespace: string,
    name: string,
    labels: Labels,
    owners: seq<OwnerReference>,
    templateLabels: Labels,
    spec: PodSpec)
  {
    function Key(): Key { WorkloadKey(kind, namespace, name) }
    function AutoTrace(): string { LabelOf(labels, AUTO_TRACE) }
  }

  datatype Key = WorkloadKey(kind: Kind, namespace: string, name: string)

  function LabelOf(labels: Labels, key: string): string {
    if labels.Some? && key in labels.value then labels.value[key] else ""
  }

  function WithLabel(labels: Labels, value: string): Labels {
    if labels.None? then Some(map[AUTO_TRACE := value]) else Some(labels.value[AUTO_TRACE := value])
  }

  function WithoutLabel(labels: Labels): Labels {
    if labels.None? then None else Some(labels.value - {AUTO_TRACE})
  }

  /** The label selector "lumigo.auto-trace,lumigo.auto-trace != false" */
  predicate Selected(w: Workload) {
    w.labels.Some? && AUTO_TRACE in w.labels.value && w.labels.value[AUTO_TRACE] != "false"
  }

  function ToLower(s: string): (r: string)
    ensures |r| == |s|
  {
    seq(|s|, i requires 0 <= i < |s| => if 'A' <= s[i] <= 'Z' then s[i] + 32 as char else s[i])
  }

  /** `hasDeploymentOwnerReference`; `None` when an API version before it does not parse. */
  function HasDeploymentOwner(owners: seq<OwnerReference>): Option<bool> {
    if owners == [] then Some(false)
    else
      var gv := ParseGroupVersion(owners[0].apiVersion);
      if gv.None? then None
      else if gv.value == ("apps", "v1") && owners[0].kind == "Deployment" then Some(true)
      else HasDeploymentOwner(owners[1..])
  }

  datatype MutationResult = Failed | Done(occurred: bool, workload: Workload)

  /** The resource is a ReplicaSet that its Deployment will take care of, or one whose owners
      cannot be parsed. */
  function SkipsReplicaSet(w: Workload): Option<MutationResult> {
    if !w.kind.ReplicaSet? then None
    else
      match HasDeploymentOwner(w.owners)
      case None => Some(Failed)
      case Some(true) => Some(Done(false, w))
      case Some(false) => None
  }

  /** `InjectLumigoInto` */
  function InjectInto(m: Mutator, w: Workload): MutationResult {
    if SkipsReplicaSet(w).Some? then SkipsReplicaSet(w).value
    else if ToLower(w.AutoTrace()) == "false" then Failed
    else
      var spec := InjectPodSpec(m, w.spec);
      if spec == w.spec then Done(false, w)
      else Done(true, w.(spec := spec, labels := WithLabel(w.labels, m.labelValue),
                         templateLabels := WithLabel(w.templateLabels, m.labelValue)))
  }

  /** `RemoveLumigoFrom` */
  function RemoveFrom(w: Workload): MutationResult {
    if SkipsReplicaSet(w).Some? then SkipsReplicaSet(w).value
    else
      var spec := RemovePodSpec(w.spec);
      if spec == w.spec then Done(false, w)
      else Done(true, w.(spec := spec, labels := WithoutLabel(w.labels),
                         templateLabels := WithoutLabel(w.templateLabels)))
  }

  /** A resource that the mutators rewrite in place. */
  class WorkloadObject {
    const kind: Kind
    const namespace: string
    const name: string
    const owners: seq<OwnerReference>
    var labels: Labels
    var templateLabels: Labels
    const podSpec: PodSpecObject

    function Value(): Workload
      reads this, podSpec
    {
      Workload(kind, namespace, name, labels, owners, templateLabels, podSpec.Value())
    }

    constructor (w: Workload)
      ensures Value() == w && fresh(podSpec)
    {
      kind, namespace, name, owners := w.kind, w.namespace, w.name, w.owners;
      labels, templateLabels := w.labels, w.templateLabels;
      podSpec := new PodSpecObject(w.spec);
    }

    method InjectLumigoInto(m: Mutator) returns (ok: bool, occurred: bool)
      modifies this, podSpec
      ensures ok <==> InjectInto(m, old(Value())).Done?
      ensures ok ==> InjectInto(m, old(Value())) == Done(occurred, Value())
      ensures !ok ==> Value() == old(Value()) && !occurred
    {
      if kind.ReplicaSet? {
        var owned := HasDeploymentOwner(owners);
        if owned.None? { return false, false; }
        if owned.value { return true, false; }
      }
      if ToLower(LabelOf(labels, AUTO_TRACE)) == "false" {
        return false, false;
      }
      var original := podSpec.Value();
      podSpec.InjectLumigoIntoPodSpec(m);
      if original == podSpec.Value() {
        return true, false;
      }
      labels := WithLabel(labels, m.labelValue);
      templateLabels := WithLabel(templateLabels, m.labelValue);
      return true, true;
    }

    method RemoveLumigoFrom() returns (ok: bool, occurred: bool)
      modifies this, podSpec
      ensures ok <==> RemoveFrom(old(Value())).Done?
      ensures ok ==> RemoveFrom(old(Value())) == Done(occurred, Value())
      ensures !ok ==> Value() == old(Value()) && !occurred
    {
      if kind.ReplicaSet? {
        var owned := HasDeploymentOwner(owners);
        if owned.None? { return false, false; }
        if owned.value { return true, false; }
      }
      var original := podSpec.Value();
      podSpec.RemoveLumigoFromPodSpec();
      if original == podSpec.Value() {
        return true, false;
      }
      labels := WithoutLabel(labels);
      templateLabels := WithoutLabel(templateLabels);
      return true, true;
    }
  }

  // ---------------------------------------------------------------- which resources are left alone

  predicate IsDeploymentReference(o: OwnerReference) { o.apiVersion == "apps/v1" && o.kind == "Deployment" }

  /** The owner at `i` decides: it is a Deployment that everything before it lets through. */
  ghost predicate FindsAt(owners: seq<OwnerReference>, i: nat) {
    && i < |owners| && IsDeploymentReference(owners[i])
    && forall j :: 0 <= j < i ==> !HasTwoSlashes(owners[j].apiVersion)
  }

  /** The owner at `i` decides: its API version does not parse, and no Deployment precedes it. */
  ghost predicate FailsAt(owners: seq<OwnerReference>, i: nat) {
    && i < |owners| && HasTwoSlashes(owners[i].apiVersion)
    && forall j :: 0 <= j < i ==> !IsDeploymentReference(owners[j])
  }

  lemma ShiftOwners(owners: seq<OwnerReference>, i: nat)
    requires owners != []
    ensures !HasTwoSlashes(owners[0].apiVersion) ==> FindsAt(owners, i + 1) == FindsAt(owners[1..], i)
    ensures !IsDeploymentReference(owners[0]) ==> FailsAt(owners, i + 1) == FailsAt(owners[1..], i)
  {
    var rest := owners[1..];
    assert forall j :: 0 <= j < |rest| ==> rest[j] == owners[j + 1];
    assert forall j :: 0 < j < |owners| ==> owners[j] == rest[j - 1];
  }

  /** A Deployment among the owners counts exactly if every API version before it parses, and
      the answer is an error exactly if one that does not parse comes before any Deployment. */
  lemma {:induction false} DeploymentOwnerExactly(owners: seq<OwnerReference>)
    ensures HasDeploymentOwner(owners) == Some(true) <==> exists i: nat :: FindsAt(owners, i)
    ensures HasDeploymentOwner(owners).None? <==> exists i: nat :: FailsAt(owners, i)
  {
    if owners != [] {
      FirstDecides(owners);
      if !IsDeploymentReference(owners[0]) && !HasTwoSlashes(owners[0].apiVersion) {
        DeploymentOwnerExactly(owners[1..]);
        DecidesLater(owners);
      }
    }
  }

  lemma DecidesLater(owners: seq<OwnerReference>)
    requires owners != [] && !IsDeploymentReference(owners[0]) && !HasTwoSlashes(owners[0].apiVersion)
    ensures (exists i: nat :: FindsAt(owners, i)) <==> exists i: nat :: FindsAt(owners[1..], i)
    ensures (exists i: nat :: FailsAt(owners, i)) <==> exists i: nat :: FailsAt(owners[1..], i)
  {
    if i: nat :| FindsAt(owners, i) { ShiftOwners(owners, i - 1); }
    if i: nat :| FailsAt(owners, i) { ShiftOwners(owners, i - 1); }
    if i: nat :| FindsAt(owners[1..], i) { ShiftOwners(owners, i); }
    if i: nat :| FailsAt(owners[1..], i) { ShiftOwners(owners, i); }
  }

  lemma FirstDecides(owners: seq<OwnerReference>)
    requires owners != []
    ensures IsDeploymentReference(owners[0]) ==> HasDeploymentOwner(owners) == Some(true) && FindsAt(owners, 0)
    ensures HasTwoSlashes(owners[0].apiVersion) ==> HasDeploymentOwner(owners).None? && FailsAt(owners, 0)
    ensures !IsDeploymentReference(owners[0]) && !HasTwoSlashes(owners[0].apiVersion) ==>
              HasDeploymentOwner(owners) == HasDeploymentOwner(owners[1..])
  {
    ApiVersions(owners[0].apiVersion);
    ParsesUnlessTwoSlashes(owners[0].apiVersion);
  }

  /** A ReplicaSet of a Deployment is left to it by both mutators, whatever its spec and labels;
      one without such an owner is not left alone, and neither is any other kind. */
  lemma OwnedReplicaSetsAreLeftAlone(m: Mutator, w: Workload)
    requires forall i :: 0 <= i < |w.owners| ==> !HasTwoSlashes(w.owners[i].apiVersion)
    ensures var owned := w.kind == ReplicaSet && exists i :: 0 <= i < |w.owners| && IsDeploymentReference(w.owners[i]);
            if owned then InjectInto(m, w) == Done(false, w) && RemoveFrom(w) == Done(false, w)
            else SkipsReplicaSet(w).None?
  {
    DeploymentOwnerExactly(w.owners);
    if i :| 0 <= i < |w.owners| && IsDeploymentReference(w.owners[i]) {
      assert FindsAt(w.owners, i);
    }
  }

  /** "true" and "false" are recognised in any case, and nothing else is. */
  lemma CaseIsIgnored(s: string)
    ensures ToLower(s) == "true" <==>
              |s| == 4 && s[0] in "tT" && s[1] in "rR" && s[2] in "uU" && s[3] in "eE"
    ensures ToLower(s) == "false" <==>
              |s| == 5 && s[0] in "fF" && s[1] in "aA" && s[2] in "lL" && s[3] in "sS" && s[4] in "eE"
  {
    var r := ToLower(s);
    assert forall i :: 0 <= i < |s| ==> r[i] == if 'A' <= s[i] <= 'Z' then s[i] + 32 as char else s[i];
    if |s| == 4 {
      assert r == [r[0], r[1], r[2], r[3]];
    } else if |s| == 5 {
      assert r == [r[0], r[1], r[2], r[3], r[4]];
    }
  }
}
