/** From an object to its owners: the walk to the root owner and the owner attributes of a pod,
    through caches, against a fixed snapshot of the cluster. */
module OwnerWalk {
  import opened Sequences
  import opened GroupVersions
  import opened ObjectCache
  import opened Chains

  datatype RelevantKind = Pod | DaemonSet | Deployment | ReplicaSet | StatefulSet | CronJob | Job

  /** The relevant kind that an API version and kind denote; a version that does not parse
      leaves the group and version empty. */
  function KindOf(apiVersion: string, kind: string): Option<RelevantKind> {
    var gv := ParseGroupVersion(apiVersion);
    if gv == Some(("", "v1")) && kind == "Pod" then Some(Pod)
    else if gv == Some(("apps", "v1")) && kind == "DaemonSet" then Some(DaemonSet)
    else if gv == Some(("apps", "v1")) && kind == "Deployment" then Some(Deployment)
    else if gv == Some(("apps", "v1")) && kind == "ReplicaSet" then Some(ReplicaSet)
    else if gv == Some(("apps", "v1")) && kind == "StatefulSet" then Some(StatefulSet)
    else if gv == Some(("batch", "v1")) && kind == "CronJob" then Some(CronJob)
    else if gv == Some(("batch", "v1")) && kind == "Job" then Some(Job)
    else None
  }

  /** The relevant API versions and kinds, as they are spelled; the core group may have a slash. */
  lemma RelevantKinds(apiVersion: string, kind: string)
    ensures var r := KindOf(apiVersion, kind);
            && (r == Some(Pod) <==> (apiVersion == "v1" || apiVersion == "/v1") && kind == "Pod")
            && (r == Some(DaemonSet) <==> apiVersion == "apps/v1" && kind == "DaemonSet")
            && (r == Some(Deployment) <==> apiVersion == "apps/v1" && kind == "Deployment")
            && (r == Some(ReplicaSet) <==> apiVersion == "apps/v1" && kind == "ReplicaSet")
            && (r == Some(StatefulSet) <==> apiVersion == "apps/v1" && kind == "StatefulSet")
            && (r == Some(CronJob) <==> apiVersion == "batch/v1" && kind == "CronJob")
            && (r == Some(Job) <==> apiVersion == "batch/v1" && kind == "Job")
  {
    ApiVersions(apiVersion);
    assert |"DaemonSet"| == 9 && |"Deployment"| == 10 && |"ReplicaSet"| == 10 && |"StatefulSet"| == 11;
    assert "Deployment"[0] == 'D' && "ReplicaSet"[0] == 'R' && |"CronJob"| == 7 && |"Job"| == 3;
    assert |"apps/v1"| == 7 && |"batch/v1"| == 8 && |"v1"| == 2 && |"/v1"| == 3;
  }

  datatype Key = ObjectKey(kind: RelevantKind, namespace: string, name: string)

  type Snapshot = map<Key, ApiObject>

  datatype ObjectRef = ObjectRef(apiVersion: string, kind: string, namespace: string, name: string, uid: string,
      resourceVersion: string) {
    function Relevant(): Option<RelevantKind> { KindOf(apiVersion, kind) }
    function Key(): Key
      requires Relevant().Some?
    {
      ObjectKey(Relevant().value, namespace, name)
    }
  }

  /** Objects sit under their own key and all names are well formed. */
  ghost predicate WellFormed(snap: Snapshot) {
    forall k :: k in snap ==>
      && snap[k].namespace == k.namespace && snap[k].name == k.name && ValidNames(snap[k])
      && forall i :: 0 <= i < |snap[k].owners| ==> ValidName(snap[k].owners[i].name)
  }

  predicate IsRelevant(o: OwnerRef) { KindOf(o.apiVersion, o.kind).Some? }

  /** `getFirstRelevantOwnerReference` */
  function FirstRelevant(owners: seq<OwnerRef>): (r: Option<OwnerRef>)
    ensures r.Some? ==> r.value in owners && IsRelevant(r.value)
    ensures r.None? ==> forall i :: 0 <= i < |owners| ==> !IsRelevant(owners[i])
  {
    if owners == [] then None
    else if IsRelevant(owners[0]) then Some(owners[0])
    else FirstRelevant(owners[1..])
  }

  /** It is the relevant reference that only irrelevant ones precede. */
  lemma {:induction false} FirstRelevantIsFirst(owners: seq<OwnerRef>, i: nat)
    requires i < |owners|
    requires IsRelevant(owners[i]) && forall j :: 0 <= j < i ==> !IsRelevant(owners[j])
    ensures FirstRelevant(owners) == Some(owners[i])
  {
    if i > 0 {
      FirstRelevantIsFirst(owners[1..], i - 1);
    }
  }

  function OwnersOf(snap: Snapshot, k: Key): seq<OwnerRef> { if k in snap then snap[k].owners else [] }

  // ---------------------------------------------------------------- the ownership graph

  function Parent(snap: Snapshot, k: Key): Option<Key> {
    var o := FirstRelevant(OwnersOf(snap, k));
    if o.None? then None
    else Some(ObjectKey(KindOf(o.value.apiVersion, o.value.kind).value, k.namespace, o.value.name))
  }

  function ParentIn(snap: Snapshot): Key -> Option<Key> { k => Parent(snap, k) }

  lemma ParentsAreObjects(snap: Snapshot)
    ensures LinksFrom(ParentIn(snap), snap.Keys)
  {}

  /** Following owners ends from every object exactly when no object is its own ancestor. */
  lemma WalkEndsIffAcyclic(snap: Snapshot)
    ensures (forall k :: ChainEnds(ParentIn(snap), k)) <==> Acyclic(ParentIn(snap))
  {
    ParentsAreObjects(snap);
    ChainsEndIffAcyclic(ParentIn(snap), snap.Keys);
  }

  // ---------------------------------------------------------------- the walk without caches

  /** `getFirstRelevantOwnerReferenceAsObjectReference`, when the object is of a relevant kind */
  function OwnerRefOf(snap: Snapshot, ref: ObjectRef): Option<ObjectRef> {
    if ref.Relevant().None? then None
    else
      var o := FirstRelevant(OwnersOf(snap, ref.Key()));
      if o.None? then None
      else Some(ObjectRef(o.value.apiVersion, o.value.kind, ref.namespace, o.value.name, o.value.uid, ""))
  }

  function OwnerRefIn(snap: Snapshot): ObjectRef -> Option<ObjectRef> { ref => OwnerRefOf(snap, ref) }

  /** `root` is where following first relevant owners from `ref` ends. */
  ghost predicate IsRoot(snap: Snapshot, ref: ObjectRef, root: ObjectRef) {
    IsEnd(OwnerRefIn(snap), ref, root)
  }

  lemma OwnerRefKey(snap: Snapshot, ref: ObjectRef)
    requires ref.Relevant().Some?
    ensures OwnerRefOf(snap, ref).Some? <==> Parent(snap, ref.Key()).Some?
    ensures OwnerRefOf(snap, ref).Some? ==>
              var owner := OwnerRefOf(snap, ref).value;
              owner.Relevant().Some? && owner.namespace == ref.namespace && Parent(snap, ref.Key()) == Some(owner.Key())
  {}

  /** Every reference along the walk is of a relevant kind, in the namespace of the start, and
      stands for the ancestor that many links up. */
  lemma {:induction false} RefsFollowAncestors(snap: Snapshot, ref: ObjectRef, n: nat)
    requires ref.Relevant().Some? && Ancestor(OwnerRefIn(snap), ref, n).Some?
    ensures var r := Ancestor(OwnerRefIn(snap), ref, n).value;
            r.Relevant().Some? && r.namespace == ref.namespace
                && Ancestor(ParentIn(snap), ref.Key(), n) == Some(r.Key())
  {
    if n > 0 {
      AncestorsBefore(OwnerRefIn(snap), ref, n - 1, n);
      RefsFollowAncestors(snap, ref, n - 1);
      var below := Ancestor(OwnerRefIn(snap), ref, n - 1).value;
      OwnerRefKey(snap, below);
      assert Ancestor(ParentIn(snap), ref.Key(), n) == ParentIn(snap)(below.Key());
    }
  }

  /** There is at most one root; it is of a relevant kind and in the namespace of the start. */
  lemma RootIsUnique(snap: Snapshot, ref: ObjectRef, r1: ObjectRef, r2: ObjectRef)
    requires ref.Relevant().Some? && IsRoot(snap, ref, r1) && IsRoot(snap, ref, r2)
    ensures r1 == r2 && r1.namespace == ref.namespace && r1.Relevant().Some?
  {
    EndIsUnique(OwnerRefIn(snap), ref, r1, r2);
    var n: nat :| Ancestor(OwnerRefIn(snap), ref, n) == Some(r1) && OwnerRefIn(snap)(r1).None?;
    RefsFollowAncestors(snap, ref, n);
  }
}
