/** `KubeClient`: owner lookups through the caches give the answers of the API itself. */
module KubeClient {
  import opened Sequences
  import opened ObjectCache
  import opened Chains
  import opened OwnerWalk

  const RETRY_ATTEMPTS := 5

  // ---------------------------------------------------------------- coherent caches

  ghost predicate EntryCoherent(snap: Snapshot, kind: RelevantKind, e: Entry) {
    exists k :: k in snap && k.kind == kind && e.value == Compact(snap[k])
                && (e.key == GenericKey(snap[k]) || e.key == VersionedKey(snap[k]))
  }

  /** Every entry is the compacted snapshot object under one of its two keys. */
  ghost predicate Coherent(snap: Snapshot, kind: RelevantKind, es: seq<Entry>) {
    DistinctKeys(EntryKey, es) && forall e :: e in es ==> EntryCoherent(snap, kind, e)
  }

  lemma HitIsSnapshotObject(snap: Snapshot, k: Key, es: seq<Entry>)
    requires WellFormed(snap) && Coherent(snap, k.kind, es) && ValidName(k.namespace) && ValidName(k.name)
    requires Lookup(es, GenericKeyOf(k.namespace, k.name)).Some?
    ensures k in snap && Lookup(es, GenericKeyOf(k.namespace, k.name)).value == Compact(snap[k])
  {
    var v := Lookup(es, GenericKeyOf(k.namespace, k.name)).value;
    LookupIsMembership(es, GenericKeyOf(k.namespace, k.name));
    assert EntryCoherent(snap, k.kind, Entry(GenericKeyOf(k.namespace, k.name), v));
    var k' :| k' in snap && k'.kind == k.kind && v == Compact(snap[k'])
              && (GenericKeyOf(k.namespace, k.name) == GenericKey(snap[k'])
                  || GenericKeyOf(k.namespace, k.name) == VersionedKey(snap[k']));
    KeysAreInjective(ApiObject(k.namespace, k.name, "", "", [], ""), snap[k']);
  }

  lemma RegisterKeepsCoherence(snap: Snapshot, k: Key, capacity: nat, es: seq<Entry>)
    requires WellFormed(snap) && k in snap && capacity > 0 && |es| <= capacity && Coherent(snap, k.kind, es)
    ensures Coherent(snap, k.kind, Inserted(capacity, es, snap[k])) && |Inserted(capacity, es, snap[k])| <= capacity
  {
    InsertedEffect(capacity, es, snap[k]);
    assert EntryCoherent(snap, k.kind, Entry(GenericKey(snap[k]), Compact(snap[k])));
    assert EntryCoherent(snap, k.kind, Entry(VersionedKey(snap[k]), Compact(snap[k])));
  }

  lemma LookupKeepsCoherence(snap: Snapshot, kind: RelevantKind, capacity: nat, es: seq<Entry>, key: string)
    requires |es| <= capacity && Coherent(snap, kind, es)
    ensures Coherent(snap, kind, LruGet(es, key)) && |LruGet(es, key)| <= capacity
  {
    LruGetEffect(capacity, es, key);
  }

  function CapacityOf(kind: RelevantKind): nat { if kind.Pod? then 10000 else 1000 }

  /** A version that was reported downstream is not reported again before five thousand further
      operations on the cache of pods, or five hundred on any other. */
  lemma VersionsAreRemembered(kind: RelevantKind, ops: seq<Op>, cs: seq<Cache>, p: nat, q: nat)
    requires IsHistory(CapacityOf(kind), ops, cs) && p < q < |ops| && ops[p].Add? && ops[q].Add?
    requires VersionedKey(ops[p].item) == VersionedKey(ops[q].item)
    requires Accepts(cs[p].entries, ops[p].item) && Accepts(cs[q].entries, ops[q].item)
    ensures q - p > if kind == Pod then 5000 else 500
  {
    NoEarlyReemission(CapacityOf(kind), ops, cs, p, q);
  }

  type Caches = map<RelevantKind, seq<Entry>>

  ghost predicate CachesCoherent(snap: Snapshot, caches: Caches) {
    forall kind: RelevantKind :: kind in caches && |caches[kind]| <= CapacityOf(kind)
        && Coherent(snap, kind, caches[kind])
  }

  // ---------------------------------------------------------------- owner attributes of a pod

  /** `ResolveRelevantOwnerReference` without caches: the owner object, as far as it is read. */
  function OwnerObject(snap: Snapshot, o: ApiObject): Option<(RelevantKind, ApiObject)> {
    var owner := FirstRelevant(o.owners);
    if owner.None? then None
    else
      var k := ObjectKey(KindOf(owner.value.apiVersion, owner.value.kind).value, o.namespace, owner.value.name);
      if k in snap then Some((k.kind, Compact(snap[k]))) else None
  }

  const DAEMONSET_NAME := "k8s.daemonset.name"
  const DAEMONSET_UID := "k8s.daemonset.uid"
  const REPLICASET_NAME := "k8s.replicaset.name"
  const REPLICASET_UID := "k8s.replicaset.uid"
  const DEPLOYMENT_NAME := "k8s.deployment.name"
  const DEPLOYMENT_UID := "k8s.deployment.uid"
  const STATEFULSET_NAME := "k8s.statefulset.name"
  const STATEFULSET_UID := "k8s.statefulset.uid"
  const JOB_NAME := "k8s.job.name"
  const JOB_UID := "k8s.job.uid"
  const CRONJOB_NAME := "k8s.cronjob.name"
  const CRONJOB_UID := "k8s.cronjob.uid"

  type Attributes = map<string, string>

  /** What the owner's owner contributes, if it is of the expected kind. */
  function GrandOwnerAttributes(
    owner: Option<(RelevantKind, ApiObject)>, kind: RelevantKind, name: string, uid: string): Attributes
  {
    if owner.Some? && owner.value.0 == kind then map[name := owner.value.1.name, uid := owner.value.1.uid] else map[]
  }

  /** What the owner itself contributes. */
  function OwnAttributes(kind: RelevantKind, o: ApiObject): Attributes {
    match kind
    case DaemonSet => map[DAEMONSET_NAME := o.name, DAEMONSET_UID := o.uid]
    case ReplicaSet => map[REPLICASET_NAME := o.name, REPLICASET_UID := o.uid]
    case StatefulSet => map[STATEFULSET_NAME := o.name, STATEFULSET_UID := o.uid]
    case Job => map[JOB_NAME := o.name, JOB_UID := o.uid]
    case _ => map[]
  }

  /** What is found one level up, for the two kinds that have such a level. */
  function UpperAttributes(snap: Snapshot, kind: RelevantKind, o: ApiObject): Attributes {
    match kind
    case ReplicaSet => GrandOwnerAttributes(OwnerObject(snap, o), Deployment, DEPLOYMENT_NAME, DEPLOYMENT_UID)
    case Job => GrandOwnerAttributes(OwnerObject(snap, o), CronJob, CRONJOB_NAME, CRONJOB_UID)
    case _ => map[]
  }

  /** The owner part of `addResourceAttributes`, without caches. */
  function OwnerAttributes(snap: Snapshot, pod: ApiObject): Attributes {
    var owner := OwnerObject(snap, pod);
    if owner.None? then map[]
    else OwnAttributes(owner.value.0, owner.value.1) + UpperAttributes(snap, owner.value.0, owner.value.1)
  }

  // ---------------------------------------------------------------- the client

  datatype Fetch = Found(item: ApiObject) | Absent | Errored

  datatype RootResult = UnsupportedKind | ApiFailed | Root(ref: ObjectRef)

  /** The caches, and the API behind them. The `n`-th request to the API fails if `faults(n)`,
      and other goroutines may replace the content of the caches between any two lookups:
      `churn` says by what. */
  class Client {
    const api: Snapshot
    const churn: nat -> Option<Caches>
    const faults: nat -> bool
    var caches: Caches
    var tick: nat
    var requests: nat

    constructor (api: Snapshot, churn: nat -> Option<Caches>, faults: nat -> bool, caches: Caches)
      requires WellFormed(api) && CachesCoherent(api, caches)
      requires forall i: nat :: churn(i).Some? ==> CachesCoherent(api, churn(i).value)
      ensures Valid() && this.api == api && this.churn == churn && this.faults == faults
      ensures this.caches == caches && tick == 0 && requests == 0
    {
      this.api, this.churn, this.faults, this.caches, tick, requests := api, churn, faults, caches, 0, 0;
    }

    ghost predicate Valid()
      reads this
    {
      && WellFormed(api) && CachesCoherent(api, caches)
      && forall i: nat :: churn(i).Some? ==> CachesCoherent(api, churn(i).value)
    }

    /** None of the requests since the `from`-th failed; true in particular if there were none. */
    ghost predicate FaultlessSince(from: nat)
      reads this
    {
      forall i: nat :: from <= i < requests ==> !faults(i)
    }

    /** The caches as the next lookup finds them. */
    function Upcoming(): Caches
      reads this
    {
      if churn(tick + 1).Some? then churn(tick + 1).value else caches
    }

    /** `retry` around one API request: an object that exists is found unless all attempts fail;
        "not found" is an error like any other, so it is believed on the last attempt only. */
    method Request(k: Key) returns (r: Fetch)
      modifies this`requests
      ensures old(requests) < requests <= old(requests) + RETRY_ATTEMPTS
      ensures r.Found? ==> k in api && r.item == api[k]
      ensures k in api ==> (r.Found? <==>
                exists i: nat :: old(requests) <= i < old(requests) + RETRY_ATTEMPTS && !faults(i))
      ensures r.Absent? ==> k !in api
      ensures k !in api ==> (r.Absent? <==> !faults(old(requests) + RETRY_ATTEMPTS - 1))
      ensures r.Errored? ==> requests == old(requests) + RETRY_ATTEMPTS && faults(requests - 1)
    {
      r := Errored;
      for i := 0 to RETRY_ATTEMPTS
        invariant requests == old(requests) + i && !r.Found?
        invariant k in api ==> r.Errored? && forall j: nat :: old(requests) <= j < requests ==> faults(j)
        invariant i > 0 ==> (r.Errored? <==> faults(requests - 1))
      {
        requests := requests + 1;
        if faults(requests - 1) {
          r := Errored;
        } else if k in api {
          return Found(api[k]);
        } else {
          r := Absent;
        }
      }
    }

    /** `getPod`, `GetDaemonSet`, ... with an empty resource version. A cache hit answers without
        any request. */
    method GetObject(k: Key) returns (r: Fetch)
      requires Valid() && ValidName(k.namespace) && ValidName(k.name)
      modifies this
      ensures Valid() && old(requests) <= requests <= old(requests) + RETRY_ATTEMPTS
      ensures r.Found? ==> k in api && Compact(r.item) == Compact(api[k])
      ensures r.Absent? ==> k !in api
      ensures r.Errored? ==> !FaultlessSince(old(requests))
      ensures Lookup(old(Upcoming())[k.kind], GenericKeyOf(k.namespace, k.name)).Some? ==>
                r.Found? && requests == old(requests)
    {
      Yield();
      var key := GenericKeyOf(k.namespace, k.name);
      var hit := Lookup(caches[k.kind], key);
      ghost var es := caches[k.kind];
      LookupKeepsCoherence(api, k.kind, CapacityOf(k.kind), es, key);
      caches := caches[k.kind := LruGet(caches[k.kind], key)];
      if hit.Some? {
        HitIsSnapshotObject(api, k, es);
        return Found(hit.value);
      }
      Yield();
      r := Request(k);
      if r.Found? {
        Register(k);
      }
    }

    /** `RegisterPod`, `RegisterDaemonSet`, ... of a snapshot object */
    method Register(k: Key)
      requires Valid() && k in api
      modifies this`caches
      ensures Valid()
    {
      var es := caches[k.kind];
      if Accepts(es, api[k]) {
        RegisterKeepsCoherence(api, k, CapacityOf(k.kind), es);
        caches := caches[k.kind := Inserted(CapacityOf(k.kind), es, api[k])];
      }
    }

    method Yield()
      requires Valid()
      modifies this`caches, this`tick
      ensures Valid() && caches == old(Upcoming())
    {
      tick := tick + 1;
      if churn(tick).Some? {
        caches := churn(tick).value;
      }
    }

    /** The owner reference of an object of a relevant kind, or an API failure. */
    method NextOwner(ref: ObjectRef) returns (ok: bool, owner: Option<ObjectRef>)
      requires Valid() && ref.Relevant().Some? && ValidName(ref.namespace) && ValidName(ref.name)
      modifies this
      ensures Valid() && old(requests) <= requests
      ensures ok || !FaultlessSince(old(requests))
      ensures ok ==> owner == OwnerRefOf(api, ref)
      ensures ok && owner.Some? ==> ValidName(owner.value.name)
    {
      var k := ref.Key();
      var fetched := GetObject(k);
      if fetched.Errored? { return false, None; }
      var owners := if fetched.Found? then fetched.item.owners else [];
      assert owners == OwnersOf(api, k);
      var first := FirstRelevant(owners);
      if first.None? { return true, None; }
      var o := first.value;
      return true, Some(ObjectRef(o.apiVersion, o.kind, ref.namespace, o.name, o.uid, ""));
    }

    /** `GetRootOwnerReference`: with an acyclic ownership graph the loop ends, and unless a
        request to the API fails it returns the root that a walk over the API alone defines.
        Only the event's own object can be of an unsupported kind. */
    method GetRootOwnerReference(involved: ObjectRef) returns (r: RootResult)
      requires Valid() && Acyclic(ParentIn(api)) && ValidName(involved.namespace) && ValidName(involved.name)
      modifies this
      ensures Valid() && old(requests) <= requests
      ensures r.ApiFailed? ==> !FaultlessSince(old(requests))
      ensures r.UnsupportedKind? <==> involved.Relevant().None?
      ensures r.Root? ==> IsRoot(api, involved, r.ref)
    {
      if involved.Relevant().None? { return UnsupportedKind; }
      var current := involved;
      ghost var n: nat := 0;
      ParentsAreObjects(api);
      while true
        invariant Valid() && old(requests) <= requests && current.Relevant().Some? && ValidName(current.namespace)
                  && ValidName(current.name)
        invariant Ancestor(OwnerRefIn(api), involved, n) == Some(current)
        decreases |api| + 1 - n
      {
        RefsFollowAncestors(api, involved, n);
        ChainsAreShort(ParentIn(api), api.Keys, involved.Key(), n);
        var ok, owner := NextOwner(current);
        if !ok { return ApiFailed; }
        if owner.None? { return Root(current); }
        OwnerRefKey(api, current);
        current, n := owner.value, n + 1;
      }
    }

    /** `ResolveRelevantOwnerReference` */
    method ResolveRelevantOwner(o: ApiObject) returns (ok: bool, owner: Option<(RelevantKind, ApiObject)>)
      requires Valid() && ValidNames(o) && forall i :: 0 <= i < |o.owners| ==> ValidName(o.owners[i].name)
      modifies this
      ensures Valid() && old(requests) <= requests
      ensures ok || (!FaultlessSince(old(requests)) && owner.None?)
      ensures ok && owner.None? ==> OwnerObject(api, o).None?
      ensures ok && owner.Some? ==> OwnerObject(api, o) == Some((owner.value.0, Compact(owner.value.1)))
      ensures owner.Some? ==>
                && ValidNames(owner.value.1)
                && forall i :: 0 <= i < |owner.value.1.owners| ==> ValidName(owner.value.1.owners[i].name)
    {
      var first := FirstRelevant(o.owners);
      if first.None? { return true, None; }
      var kind := KindOf(first.value.apiVersion, first.value.kind).value;
      var k := ObjectKey(kind, o.namespace, first.value.name);
      var fetched := GetObject(k);
      if fetched.Errored? { return false, None; }
      if fetched.Absent? { return true, None; }
      assert Compact(fetched.item).owners == api[k].owners && Compact(fetched.item).name == api[k].name;
      return true, Some((kind, fetched.item));
    }

    method GrandOwner(o: ApiObject, kind: RelevantKind, name: string, uid: string) returns (ok: bool, added: Attributes)
      requires Valid() && ValidNames(o) && forall i :: 0 <= i < |o.owners| ==> ValidName(o.owners[i].name)
      modifies this
      ensures Valid() && old(requests) <= requests
      ensures ok || (!FaultlessSince(old(requests)) && added == map[])
      ensures ok ==> added == GrandOwnerAttributes(OwnerObject(api, o), kind, name, uid)
    {
      var owner;
      ok, owner := ResolveRelevantOwner(o);
      added := if owner.Some? && owner.value.0 == kind then map[name := owner.value.1.name, uid := owner.value.1.uid]
          else map[];
    }

    method UpperOwner(kind: RelevantKind, o: ApiObject) returns (ok: bool, added: Attributes)
      requires Valid() && ValidNames(o) && forall i :: 0 <= i < |o.owners| ==> ValidName(o.owners[i].name)
      modifies this
      ensures Valid() && old(requests) <= requests
      ensures ok || (!FaultlessSince(old(requests)) && added == map[])
      ensures ok ==> added == UpperAttributes(api, kind, o)
    {
      if kind.ReplicaSet? {
        ok, added := GrandOwner(o, Deployment, DEPLOYMENT_NAME, DEPLOYMENT_UID);
      } else if kind.Job? {
        ok, added := GrandOwner(o, CronJob, CRONJOB_NAME, CRONJOB_UID);
      } else {
        ok, added := true, map[];
      }
    }

    /** The owner part of `addResourceAttributes`; `ok` is false when the API failed, and even
        then nothing wrong is written. */
    method AddOwnerAttributes(pod: ApiObject, attributes: Attributes) returns (ok: bool, r: Attributes)
      requires Valid() && ValidNames(pod) && forall i :: 0 <= i < |pod.owners| ==> ValidName(pod.owners[i].name)
      modifies this
      ensures Valid() && old(requests) <= requests
      ensures ok || !FaultlessSince(old(requests))
      ensures ok ==> r == attributes + OwnerAttributes(api, pod)
      ensures PartlyAdded(attributes, OwnerAttributes(api, pod), r)
    {
      r := attributes;
      var owner;
      ok, owner := ResolveRelevantOwner(pod);
      if !ok || owner.None? {
        NothingAdded(attributes, OwnerAttributes(api, pod));
        return;
      }
      var added;
      ok, added := UpperOwner(owner.value.0, owner.value.1);
      AddedAttributes(api, pod, owner.value.0, owner.value.1, added, attributes);
      r := r + (OwnAttributes(owner.value.0, owner.value.1) + added);
    }
  }

  /** `r` is `attributes` with some of the entries of `all` written over it. */
  ghost predicate PartlyAdded(attributes: Attributes, all: Attributes, r: Attributes) {
    exists part: Attributes :: part.Items <= all.Items && r == attributes + part
  }

  /** Whether or not the upper level was found, what is added is part of what is right. */
  lemma AddedAttributes(snap: Snapshot, pod: ApiObject, kind: RelevantKind, o: ApiObject, added: Attributes,
                        attributes: Attributes)
    requires OwnerObject(snap, pod) == Some((kind, Compact(o)))
    requires added == map[] || added == UpperAttributes(snap, kind, o)
    ensures PartlyAdded(attributes, OwnerAttributes(snap, pod), attributes + (OwnAttributes(kind, o) + added))
    ensures added == UpperAttributes(snap, kind, o) ==> OwnAttributes(kind, o) + added == OwnerAttributes(snap, pod)
  {
    ReadThroughCompaction(snap, kind, o);
    UpperLeavesOwn(snap, kind, o);
    assert OwnAttributes(kind, o) + map[] == OwnAttributes(kind, o);
    assert (OwnAttributes(kind, o) + added).Items <= OwnerAttributes(snap, pod).Items;
  }

  lemma NothingAdded(attributes: Attributes, all: Attributes)
    ensures PartlyAdded(attributes, all, attributes)
  {
    var part: Attributes := map[];
    assert part.Items <= all.Items && attributes == attributes + part;
  }

  lemma ReadThroughCompaction(snap: Snapshot, kind: RelevantKind, o: ApiObject)
    ensures OwnAttributes(kind, Compact(o)) == OwnAttributes(kind, o)
    ensures UpperAttributes(snap, kind, Compact(o)) == UpperAttributes(snap, kind, o)
  {}

  /** The attributes of one level never overwrite those of the other. */
  lemma UpperLeavesOwn(snap: Snapshot, kind: RelevantKind, o: ApiObject)
    ensures OwnAttributes(kind, o).Items <= (OwnAttributes(kind, o) + UpperAttributes(snap, kind, o)).Items
  {
    assert REPLICASET_NAME[4] == REPLICASET_UID[4] == 'r' && DEPLOYMENT_NAME[4] == DEPLOYMENT_UID[4] == 'd';
    assert JOB_NAME[4] == JOB_UID[4] == 'j' && CRONJOB_NAME[4] == CRONJOB_UID[4] == 'c';
  }

  /** Compaction keeps everything that owner resolution reads. */
  lemma ObjectReadThroughCompaction(snap: Snapshot, o: ApiObject)
    ensures OwnerObject(snap, Compact(o)) == OwnerObject(snap, o)
    ensures OwnerAttributes(snap, Compact(o)) == OwnerAttributes(snap, o)
  {}

  // ---------------------------------------------------------------- the two walks agree

  /** The chain of a pod: an owner of one kind, owned by one of another, both found. */
  ghost predicate OwnedVia(snap: Snapshot, pod: Key, middle: Key, top: Key) {
    && pod in snap && middle in snap && top in snap
    && Parent(snap, pod) == Some(middle) && Parent(snap, middle) == Some(top)
  }

  /** The attributes of a pod, spelled out: those of its owner, and of the owner's owner if that
      is the expected one. */
  lemma OwnerAttributesExactly(snap: Snapshot, pod: Key, owner: Key)
    requires WellFormed(snap) && pod in snap && owner in snap && Parent(snap, pod) == Some(owner)
    ensures var a, o := OwnerAttributes(snap, snap[pod]), snap[owner];
            && (owner.kind == DaemonSet ==> a == map["k8s.daemonset.name" := o.name, "k8s.daemonset.uid" := o.uid])
            && (owner.kind == StatefulSet ==>
                  a == map["k8s.statefulset.name" := o.name, "k8s.statefulset.uid" := o.uid])
            && (owner.kind == ReplicaSet ==>
                  a == map["k8s.replicaset.name" := o.name, "k8s.replicaset.uid" := o.uid]
                       + UpperExactly(snap, owner, Deployment, "k8s.deployment.name", "k8s.deployment.uid"))
            && (owner.kind == Job ==>
                  a == map["k8s.job.name" := o.name, "k8s.job.uid" := o.uid]
                       + UpperExactly(snap, owner, CronJob, "k8s.cronjob.name", "k8s.cronjob.uid"))
            && (owner.kind in {Pod, Deployment, CronJob} ==> a == map[])
  {
    OwnerObjectIsParent(snap, pod, owner);
    ObjectReadThroughCompaction(snap, snap[owner]);
    ReadThroughCompaction(snap, owner.kind, snap[owner]);
  }

  /** The name and uid of the owner's owner, if it is of this kind and exists. */
  function UpperExactly(snap: Snapshot, k: Key, kind: RelevantKind, name: string, uid: string): Attributes
    requires k in snap
  {
    var top := Parent(snap, k);
    if top.Some? && top.value in snap && top.value.kind == kind
    then map[name := snap[top.value].name, uid := snap[top.value].uid] else map[]
  }

  lemma OwnerObjectIsParent(snap: Snapshot, k: Key, p: Key)
    requires WellFormed(snap) && k in snap && p in snap && Parent(snap, k) == Some(p)
    ensures OwnerObject(snap, snap[k]) == Some((p.kind, Compact(snap[p])))
  {}

  ghost predicate ControllerPair(middle: Key, top: Key) {
    (middle.kind == ReplicaSet && top.kind == Deployment) || (middle.kind == Job && top.kind == CronJob)
  }

  function TopName(top: Key): string { if top.kind == Deployment then DEPLOYMENT_NAME else CRONJOB_NAME }

  /** The name attribute that traces of such a pod get is that of the top object. */
  lemma NameAttributeIsTop(snap: Snapshot, pod: Key, middle: Key, top: Key)
    requires WellFormed(snap) && OwnedVia(snap, pod, middle, top) && ControllerPair(middle, top)
    ensures TopName(top) in OwnerAttributes(snap, snap[pod])
              && OwnerAttributes(snap, snap[pod])[TopName(top)] == top.name
  {
    OwnerObjectIsParent(snap, pod, middle);
    OwnerObjectIsParent(snap, middle, top);
    ObjectReadThroughCompaction(snap, snap[middle]);
    ChainAttributes(snap, snap[pod], middle.kind, Compact(snap[middle]), top.kind, Compact(snap[top]));
  }

  lemma ChainAttributes(snap: Snapshot, pod: ApiObject, middle: RelevantKind, o: ApiObject, top: RelevantKind,
      oo: ApiObject)
    requires OwnerObject(snap, pod) == Some((middle, o)) && OwnerObject(snap, o) == Some((top, oo))
    requires (middle == ReplicaSet && top == Deployment) || (middle == Job && top == CronJob)
    ensures var name := if top == Deployment then DEPLOYMENT_NAME else CRONJOB_NAME;
            name in OwnerAttributes(snap, pod) && OwnerAttributes(snap, pod)[name] == oo.name
  {
    if top == Deployment {
      assert |DEPLOYMENT_NAME| != |DEPLOYMENT_UID|;
      AttributeWins(map[REPLICASET_NAME := o.name, REPLICASET_UID := o.uid], DEPLOYMENT_NAME, oo.name,
          DEPLOYMENT_UID, oo.uid);
    } else {
      assert |CRONJOB_NAME| != |CRONJOB_UID|;
      AttributeWins(map[JOB_NAME := o.name, JOB_UID := o.uid], CRONJOB_NAME, oo.name, CRONJOB_UID, oo.uid);
    }
  }

  lemma AttributeWins(a: Attributes, name: string, x: string, uid: string, y: string)
    requires name != uid
    ensures name in a + map[name := x, uid := y] && (a + map[name := x, uid := y])[name] == x
  {}

  /** An event on such a pod has the top object as its root owner exactly when nothing relevant
      owns that. */
  lemma RootIsTop(snap: Snapshot, pod: Key, middle: Key, top: Key, event: ObjectRef, root: ObjectRef)
    requires OwnedVia(snap, pod, middle, top)
    requires event.Relevant().Some? && event.Key() == pod && IsRoot(snap, event, root)
    ensures root.Relevant().Some? && (root.Key() == top <==> Parent(snap, top).None?)
  {
    var up := ParentIn(snap);
    var n: nat :| Ancestor(OwnerRefIn(snap), event, n) == Some(root) && OwnerRefIn(snap)(root).None?;
    RefsFollowAncestors(snap, event, n);
    OwnerRefKey(snap, root);
    EndAtTwo(up, pod, middle, top, root.Key(), n);
  }

  lemma EndAtTwo(up: Key -> Option<Key>, k: Key, middle: Key, top: Key, end: Key, n: nat)
    requires up(k) == Some(middle) && up(middle) == Some(top)
    requires Ancestor(up, k, n) == Some(end) && up(end).None?
    ensures end == top <==> up(top).None?
  {
    assert Ancestor(up, k, 0) == Some(k);
    assert Ancestor(up, k, 1) == Some(middle);
    assert Ancestor(up, k, 2) == Some(top);
    if up(top).None? {
      NothingBeyondEnd(up, k, 2, top, n);
      NothingBeyondEnd(up, k, n, end, 2);
    }
  }

  /** So the attribute on the pod's traces and the root owner of the pod's events name the same
      object whenever the Deployment or CronJob is unowned. */
  lemma WalksAgree(snap: Snapshot, pod: Key, middle: Key, top: Key, event: ObjectRef, root: ObjectRef)
    requires WellFormed(snap) && OwnedVia(snap, pod, middle, top) && ControllerPair(middle, top)
              && Parent(snap, top).None?
    requires event.Relevant().Some? && event.Key() == pod && IsRoot(snap, event, root)
    ensures TopName(top) in OwnerAttributes(snap, snap[pod])
              && OwnerAttributes(snap, snap[pod])[TopName(top)] == root.name
  {
    NameAttributeIsTop(snap, pod, middle, top);
    RootIsTop(snap, pod, middle, top, event, root);
  }
}
