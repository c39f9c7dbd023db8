/** `lruWithIndexer`: one least-recently-used cache that holds every object under a generic
    key and under a key with its resource version, and emits versions it has not seen. */
module ObjectCache {
  import opened Sequences

  datatype OwnerRef = OwnerRef(apiVersion: string, kind: string, name: string, uid: string)

  /** `payload` stands for everything that compaction drops. */
  datatype ApiObject = ApiObject(
    namespace: string, name: string, uid: string, resourceVersion: string, owners: seq<OwnerRef>, payload: string)

  function Compact(o: ApiObject): (c: ApiObject)
    ensures c.namespace == o.namespace && c.name == o.name && c.uid == o.uid && c.owners == o.owners
    ensures c.resourceVersion == o.resourceVersion && c.payload == ""
  {
    o.(payload := "")
  }

  // ---------------------------------------------------------------- keys

  function GenericKeyOf(namespace: string, name: string): string { namespace + "/" + name }

  function VersionedKeyOf(namespace: string, name: string, version: string): string {
    namespace + "/" + name + "@" + version
  }

  function GenericKey(o: ApiObject): string { GenericKeyOf(o.namespace, o.name) }
  function VersionedKey(o: ApiObject): string { VersionedKeyOf(o.namespace, o.name, o.resourceVersion) }

  /** Host-name syntax (section 2.1 of RFC 1123) has neither character. */
  predicate ValidName(s: string) { '/' !in s && '@' !in s }
  predicate ValidNames(o: ApiObject) { ValidName(o.namespace) && ValidName(o.name) }

  lemma SplitAtFirst(a: string, b: string, a': string, b': string, c: char)
    requires a + [c] + b == a' + [c] + b' && c !in a && c !in a'
    ensures a == a' && b == b'
  {
    var s := a + [c] + b;
    assert s[|a|] == c && s[|a'|] == c;
    assert |a| == |a'|;
    assert a == s[..|a|] && a' == s[..|a'|] && b == s[|a| + 1..] && b' == s[|a'| + 1..];
  }

  /** Distinct objects and versions have distinct keys, and the two kinds of key never meet. */
  lemma KeysAreInjective(o: ApiObject, p: ApiObject)
    requires ValidNames(o) && ValidNames(p)
    ensures GenericKey(o) == GenericKey(p) <==> o.namespace == p.namespace && o.name == p.name
    ensures VersionedKey(o) == VersionedKey(p)
            <==> o.namespace == p.namespace && o.name == p.name && o.resourceVersion == p.resourceVersion
    ensures GenericKey(o) != VersionedKey(p)
  {
    if GenericKey(o) == GenericKey(p) {
      SplitAtFirst(o.namespace, o.name, p.namespace, p.name, '/');
    }
    if VersionedKey(o) == VersionedKey(p) {
      assert VersionedKey(o) == GenericKey(o) + ['@'] + o.resourceVersion;
      assert VersionedKey(p) == GenericKey(p) + ['@'] + p.resourceVersion;
      SplitAtFirst(GenericKey(o), o.resourceVersion, GenericKey(p), p.resourceVersion, '@');
      SplitAtFirst(o.namespace, o.name, p.namespace, p.name, '/');
    }
    assert VersionedKey(p)[|GenericKey(p)|] == '@' && '@' !in GenericKey(o);
  }

  // ---------------------------------------------------------------- the LRU cache

  datatype Entry = Entry(key: string, value: ApiObject)

  function EntryKey(e: Entry): string { e.key }

  predicate Resident(es: seq<Entry>, k: string) { HasKey(EntryKey, es, k) }

  function Lookup(es: seq<Entry>, k: string): Option<ApiObject> {
    var i := FirstIndex(EntryKey, es, k);
    if i < |es| then Some(es[i].value) else None
  }

  function Without(es: seq<Entry>, k: string): seq<Entry> { DropFirst(EntryKey, es, k) }

  /** Most recently used first; a new key evicts from the far end. */
  function LruAdd(capacity: nat, es: seq<Entry>, k: string, v: ApiObject): seq<Entry> {
    var r := [Entry(k, v)] + Without(es, k);
    if |r| > capacity then r[..capacity] else r
  }

  function LruGet(es: seq<Entry>, k: string): seq<Entry> {
    var v := Lookup(es, k);
    if v.Some? then [Entry(k, v.value)] + Without(es, k) else es
  }

  ghost predicate LruValid(capacity: nat, es: seq<Entry>) {
    DistinctKeys(EntryKey, es) && |es| <= capacity
  }

  lemma WithoutEffect(es: seq<Entry>, k: string)
    requires DistinctKeys(EntryKey, es)
    ensures DistinctKeys(EntryKey, Without(es, k)) && !Resident(Without(es, k), k)
    ensures forall e :: e in Without(es, k) <==> e in es && e.key != k
    ensures |Without(es, k)| == |es| - if Resident(es, k) then 1 else 0
  {
    DropFirstEffect(EntryKey, es, k);
  }

  /** In terms of entries: a lookup finds exactly the entry with that key. */
  lemma LookupIsMembership(es: seq<Entry>, k: string)
    requires DistinctKeys(EntryKey, es)
    ensures Resident(es, k) <==> exists e :: e in es && e.key == k
    ensures forall v :: Lookup(es, k) == Some(v) <==> Entry(k, v) in es
  {
    forall v | Entry(k, v) in es ensures Lookup(es, k) == Some(v) {
      var j :| 0 <= j < |es| && es[j] == Entry(k, v);
      assert EntryKey(es[j]) == k;
    }
  }

  lemma FrontEffect(es: seq<Entry>, k: string, v: ApiObject)
    requires DistinctKeys(EntryKey, es)
    ensures var all := [Entry(k, v)] + Without(es, k);
            && DistinctKeys(EntryKey, all)
            && (forall e :: e in all <==> e == Entry(k, v) || (e in es && e.key != k))
            && (es != [] && es[0].key != k ==> |all| > 1 && all[1] == es[0])
  {
    WithoutEffect(es, k);
    var rest := Without(es, k);
    assert forall e :: e in [Entry(k, v)] + rest <==> e == Entry(k, v) || e in rest;
    assert forall i :: 0 <= i < |rest| ==> rest[i] in rest;
  }

  /** Adding makes the entry the most recent one, keeps what is not evicted, and evicts only
      from a full cache. */
  lemma LruAddEffect(capacity: nat, es: seq<Entry>, k: string, v: ApiObject)
    requires LruValid(capacity, es) && capacity > 0
    ensures var r := LruAdd(capacity, es, k, v);
            && LruValid(capacity, r) && r[0] == Entry(k, v)
            && (forall e :: e in r ==> e == Entry(k, v) || (e in es && e.key != k))
            && (capacity >= 2 && es != [] && es[0].key != k ==> es[0] in r)
            && (forall e :: e in es && e.key != k && e !in r ==> |r| == capacity)
  {
    FrontEffect(es, k, v);
    var all, r := [Entry(k, v)] + Without(es, k), LruAdd(capacity, es, k, v);
    assert r == all[..|r|];
    if capacity >= 2 && es != [] && es[0].key != k {
      assert r[1] == all[1];
    }
  }

  lemma LruGetEffect(capacity: nat, es: seq<Entry>, k: string)
    requires LruValid(capacity, es)
    ensures LruValid(capacity, LruGet(es, k))
    ensures forall e :: e in LruGet(es, k) <==> e in es
  {
    WithoutEffect(es, k);
    LookupIsMembership(es, k);
    var v := Lookup(es, k);
    if v.Some? {
      assert forall e :: e in es && e.key == k ==> e == Entry(k, v.value);
      assert DistinctKeys(EntryKey, LruGet(es, k)) by {
        assert forall i :: 0 <= i < |Without(es, k)| ==> Without(es, k)[i] in Without(es, k);
      }
    }
  }

  // ---------------------------------------------------------------- the two-key wrapper

  function Inserted(capacity: nat, es: seq<Entry>, o: ApiObject): seq<Entry> {
    LruAdd(capacity, LruAdd(capacity, es, GenericKey(o), Compact(o)), VersionedKey(o), Compact(o))
  }

  /** Entries, and the objects that were accepted so far, oldest first. */
  datatype Cache = Cache(entries: seq<Entry>, accepted: seq<ApiObject>)

  datatype Op = Add(item: ApiObject) | Get(key: string)

  predicate Accepts(es: seq<Entry>, o: ApiObject) { !Resident(es, VersionedKey(o)) }

  function Perform(capacity: nat, c: Cache, op: Op): Cache {
    match op
    case Add(o) =>
      if Accepts(c.entries, o) then Cache(Inserted(capacity, c.entries, o), c.accepted + [o]) else c
    case Get(k) => c.(entries := LruGet(c.entries, k))
  }

  ghost predicate IsStep(capacity: nat, c: Cache, op: Op, c': Cache) {
    c' == Perform(capacity, c, op) && (op.Add? ==> ValidNames(op.item))
  }

  /** `cs` are the states of the cache over a history of operations on well-named objects. */
  ghost predicate IsHistory(capacity: nat, ops: seq<Op>, cs: seq<Cache>) {
    && capacity > 0 && |cs| == |ops| + 1 && cs[0] == Cache([], [])
    && forall i :: 0 <= i < |ops| ==> IsStep(capacity, cs[i], ops[i], cs[i + 1])
  }

  function LastAccepted(accepted: seq<ApiObject>, key: string): Option<ApiObject> {
    if accepted == [] then None
    else if GenericKey(accepted[|accepted| - 1]) == key then Some(accepted[|accepted| - 1])
    else LastAccepted(accepted[..|accepted| - 1], key)
  }

  /** An entry under a versioned key is an accepted object of that version; one under a generic
      key is the last accepted object of that name. */
  ghost predicate EntryExplained(accepted: seq<ApiObject>, e: Entry) {
    || (exists o :: o in accepted && e == Entry(VersionedKey(o), Compact(o)))
    || (LastAccepted(accepted, e.key).Some? && e == Entry(e.key, Compact(LastAccepted(accepted, e.key).value)))
  }

  ghost predicate TwoKeyInvariant(capacity: nat, c: Cache) {
    && LruValid(capacity, c.entries)
    && (forall o :: o in c.accepted ==> ValidNames(o))
    && (forall e :: e in c.entries ==> EntryExplained(c.accepted, e))
  }

  /** The two insertions of an accepted object: its two entries come first, all others were
      there before, and the generic entry survives the second insertion iff there is room
      for two. */
  lemma InsertedEffect(capacity: nat, es: seq<Entry>, o: ApiObject)
    requires LruValid(capacity, es) && capacity > 0 && ValidNames(o)
    ensures var r := Inserted(capacity, es, o);
            && LruValid(capacity, r)
            && Entry(VersionedKey(o), Compact(o)) in r
            && (Entry(GenericKey(o), Compact(o)) in r <==> capacity >= 2)
            && (forall e :: e in r ==> e == Entry(VersionedKey(o), Compact(o)) || e == Entry(GenericKey(o), Compact(o))
                                       || (e in es && e.key != GenericKey(o) && e.key != VersionedKey(o)))
            && (forall e :: e in es && e.key != GenericKey(o) && e.key != VersionedKey(o) && e !in r ==>
                |r| == capacity)
  {
    KeysAreInjective(o, o);
    var g := LruAdd(capacity, es, GenericKey(o), Compact(o));
    LruAddEffect(capacity, es, GenericKey(o), Compact(o));
    LruAddEffect(capacity, g, VersionedKey(o), Compact(o));
    var r := Inserted(capacity, es, o);
    assert r[0] in r;
    assert |g| <= |r|;
    if capacity == 1 {
      assert r == [r[0]];
    }
  }

  lemma LastAcceptedKey(accepted: seq<ApiObject>, key: string)
    ensures LastAccepted(accepted, key).Some? ==>
              GenericKey(LastAccepted(accepted, key).value) == key && LastAccepted(accepted, key).value in accepted
  {}

  lemma PerformPreserves(capacity: nat, c: Cache, op: Op, r: Cache)
    requires capacity > 0 && TwoKeyInvariant(capacity, c) && (op.Add? ==> ValidNames(op.item))
    requires r == Perform(capacity, c, op)
    ensures TwoKeyInvariant(capacity, r)
  {
    match op
    case Get(k) => LruGetEffect(capacity, c.entries, k);
    case Add(o) =>
      if Accepts(c.entries, o) {
        InsertedEffect(capacity, c.entries, o);
        forall e | e in r.entries ensures EntryExplained(r.accepted, e) {
          StillExplained(c.accepted, o, e);
        }
      }
  }

  lemma StillExplained(accepted: seq<ApiObject>, o: ApiObject, e: Entry)
    requires e == Entry(VersionedKey(o), Compact(o)) || e == Entry(GenericKey(o), Compact(o))
             || (EntryExplained(accepted, e) && e.key != GenericKey(o))
    ensures EntryExplained(accepted + [o], e)
  {
    var now := accepted + [o];
    assert o in now && now[|now| - 1] == o && now[..|now| - 1] == accepted;
    if EntryExplained(accepted, e) && e.key != GenericKey(o) {
      if p :| p in accepted && e == Entry(VersionedKey(p), Compact(p)) {
        assert p in now;
      }
    }
  }

  lemma {:induction false} TwoKeyInvariantHolds(capacity: nat, ops: seq<Op>, cs: seq<Cache>, n: nat)
    requires IsHistory(capacity, ops, cs) && n <= |ops|
    ensures TwoKeyInvariant(capacity, cs[n])
  {
    if n > 0 {
      TwoKeyInvariantHolds(capacity, ops, cs, n - 1);
      PerformPreserves(capacity, cs[n - 1], ops[n - 1], cs[n]);
    }
  }

  /** What lookups return after any history of additions and lookups: under a versioned key
      the compacted object of exactly that namespace, name and version; under a generic key
      the last accepted object of that name. */
  lemma LookupsAfterHistory(capacity: nat, ops: seq<Op>, cs: seq<Cache>, o: ApiObject)
    requires IsHistory(capacity, ops, cs) && ValidNames(o)
    ensures var c := cs[|ops|];
            && |c.entries| <= capacity
            && (Lookup(c.entries, VersionedKey(o)).Some? ==>
                  var v := Lookup(c.entries, VersionedKey(o)).value;
                  && v.namespace == o.namespace && v.name == o.name && v.resourceVersion == o.resourceVersion
                  && exists p :: p in c.accepted && v == Compact(p))
            && (Lookup(c.entries, GenericKey(o)).Some? ==>
                  && LastAccepted(c.accepted, GenericKey(o)).Some?
                  && Lookup(c.entries, GenericKey(o)).value == Compact(LastAccepted(c.accepted, GenericKey(o)).value))
  {
    TwoKeyInvariantHolds(capacity, ops, cs, |ops|);
    var c := cs[|ops|];
    LookupIsMembership(c.entries, VersionedKey(o));
    LookupIsMembership(c.entries, GenericKey(o));
    LastAcceptedKey(c.accepted, VersionedKey(o));
    forall p | p in c.accepted
        ensures ValidNames(p) && GenericKey(p) != VersionedKey(o) && VersionedKey(p) != GenericKey(o) {
      KeysAreInjective(p, o);
      KeysAreInjective(o, p);
    }
    if Lookup(c.entries, VersionedKey(o)).Some? {
      var e := Entry(VersionedKey(o), Lookup(c.entries, VersionedKey(o)).value);
      assert EntryExplained(c.accepted, e);
      var p :| p in c.accepted && e == Entry(VersionedKey(p), Compact(p));
      KeysAreInjective(o, p);
    }
    if Lookup(c.entries, GenericKey(o)).Some? {
      assert EntryExplained(c.accepted, Entry(GenericKey(o), Lookup(c.entries, GenericKey(o)).value));
    }
  }

  /** Right after an object has been accepted its versioned key is resident, and its generic
      key is exactly when the cache has room for two entries. */
  lemma ResidentAfterAccept(capacity: nat, ops: seq<Op>, cs: seq<Cache>, n: nat)
    requires IsHistory(capacity, ops, cs) && n < |ops| && ops[n].Add?
    requires Accepts(cs[n].entries, ops[n].item)
    ensures var es, o := cs[n + 1].entries, ops[n].item;
            && Lookup(es, VersionedKey(o)) == Some(Compact(o))
            && (Resident(es, GenericKey(o)) <==> capacity >= 2)
            && (capacity >= 2 ==> Lookup(es, GenericKey(o)) == Some(Compact(o)))
  {
    var o := ops[n].item;
    assert IsStep(capacity, cs[n], ops[n], cs[n + 1]);
    TwoKeyInvariantHolds(capacity, ops, cs, n);
    InsertedEffect(capacity, cs[n].entries, o);
    KeysAreInjective(o, o);
    var es := cs[n + 1].entries;
    LookupIsMembership(es, VersionedKey(o));
    LookupIsMembership(es, GenericKey(o));
  }

  // ---------------------------------------------------------------- deduplication

  /** Operation `r` evicts key `k`: it was resident before and is not afterwards, and the
      operation accepted an object into a cache that ends up full. */
  ghost predicate Evicts(capacity: nat, ops: seq<Op>, cs: seq<Cache>, r: nat, k: string)
    requires r < |ops| && |cs| == |ops| + 1
  {
    && Resident(cs[r].entries, k) && !Resident(cs[r + 1].entries, k)
    && ops[r].Add? && Accepts(cs[r].entries, ops[r].item)
    && |cs[r + 1].entries| == capacity
  }

  lemma DisappearanceIsEviction(capacity: nat, ops: seq<Op>, cs: seq<Cache>, r: nat, k: string)
    requires IsHistory(capacity, ops, cs) && r < |ops|
    requires Resident(cs[r].entries, k) && !Resident(cs[r + 1].entries, k)
    ensures Evicts(capacity, ops, cs, r, k)
  {
    TwoKeyInvariantHolds(capacity, ops, cs, r);
    var es, es' := cs[r].entries, cs[r + 1].entries;
    LookupIsMembership(es, k);
    match ops[r]
    case Get(g) =>
      LruGetEffect(capacity, es, g);
      LookupIsMembership(es', k);
    case Add(o) =>
      if Accepts(es, o) {
        InsertedEffect(capacity, es, o);
        LookupIsMembership(es', k);
        KeysAreInjective(o, o);
        if k == GenericKey(o) {
          assert capacity == 1;
          assert |es'| > 0;
        } else {
          var e :| e in es && e.key == k;
          assert e !in es';
        }
      }
  }

  /** Between a state where a key is resident and one where it is not lies a step that loses it. */
  lemma {:induction false} LosingStep(cs: seq<Cache>, p: nat, q: nat, k: string) returns (r: nat)
    requires p <= q < |cs| && Resident(cs[p].entries, k) && !Resident(cs[q].entries, k)
    ensures p <= r < q && Resident(cs[r].entries, k) && !Resident(cs[r + 1].entries, k)
    decreases q - p
  {
    if Resident(cs[q - 1].entries, k) {
      r := q - 1;
    } else {
      r := LosingStep(cs, p, q - 1, k);
    }
  }

  /** With additions one at a time, a version is emitted a second time only if its versioned
      key was evicted in between. */
  lemma EmittedTwiceOnlyAfterEviction(capacity: nat, ops: seq<Op>, cs: seq<Cache>, p: nat, q: nat) returns (r: nat)
    requires IsHistory(capacity, ops, cs) && p < q < |ops| && ops[p].Add? && ops[q].Add?
    requires VersionedKey(ops[p].item) == VersionedKey(ops[q].item)
    requires Accepts(cs[p].entries, ops[p].item)
    requires Accepts(cs[q].entries, ops[q].item)
    ensures p < r < q && Evicts(capacity, ops, cs, r, VersionedKey(ops[p].item))
  {
    ResidentAfterAccept(capacity, ops, cs, p);
    r := LosingStep(cs, p + 1, q, VersionedKey(ops[p].item));
    DisappearanceIsEviction(capacity, ops, cs, r, VersionedKey(ops[p].item));
  }

  // ---------------------------------------------------------------- recency

  /** How far down the recency order a key is. */
  function Age(es: seq<Entry>, k: string): nat { FirstIndex(EntryKey, es, k) }

  lemma KeyAt(es: seq<Entry>, k: string, i: nat)
    requires DistinctKeys(EntryKey, es) && i < |es| && es[i].key == k
    ensures Age(es, k) == i
  {
    assert EntryKey(es[i]) == k;
  }

  /** Moving or inserting another key to the front ages an entry by at most one. */
  lemma FrontAges(es: seq<Entry>, e: Entry, k: string)
    requires DistinctKeys(EntryKey, es) && Resident(es, k) && k != e.key
    ensures var r := [e] + Without(es, e.key);
            DistinctKeys(EntryKey, r) && Resident(r, k) && Age(r, k) <= Age(es, k) + 1
  {
    FrontPushesBack(EntryKey, es, e, k);
  }

  lemma AddAges(capacity: nat, es: seq<Entry>, e: Entry, k: string)
    requires LruValid(capacity, es) && Resident(es, k) && Age(es, k) + 1 < capacity
    ensures var r := LruAdd(capacity, es, e.key, e.value);
            LruValid(capacity, r) && Resident(r, k) && Age(r, k) <= Age(es, k) + 1
  {
    LruAddEffect(capacity, es, e.key, e.value);
    var all, r := [e] + Without(es, e.key), LruAdd(capacity, es, e.key, e.value);
    assert r == all[..|r|];
    if k == e.key {
      KeyAt(r, k, 0);
    } else {
      FrontAges(es, e, k);
      assert r[Age(all, k)] == all[Age(all, k)];
      KeyAt(r, k, Age(all, k));
    }
  }

  /** A lookup makes the key the most recent one and ages the others by at most one. */
  lemma GetAges(capacity: nat, es: seq<Entry>, g: string, k: string)
    requires LruValid(capacity, es)
    ensures Resident(es, g) ==> Resident(LruGet(es, g), g) && Age(LruGet(es, g), g) == 0
    ensures Resident(es, k) ==> Resident(LruGet(es, g), k) && Age(LruGet(es, g), k) <= Age(es, k) + 1
  {
    LruGetEffect(capacity, es, g);
    if Resident(es, g) {
      KeyAt(LruGet(es, g), g, 0);
      if Resident(es, k) && k != g {
        FrontAges(es, LruGet(es, g)[0], k);
      }
    }
  }

  lemma StepAges(capacity: nat, c: Cache, op: Op, k: string)
    requires capacity > 0 && LruValid(capacity, c.entries) && Resident(c.entries, k) && Age(c.entries, k) + 2 < capacity
    ensures var r := Perform(capacity, c, op).entries;
            LruValid(capacity, r) && Resident(r, k) && Age(r, k) <= Age(c.entries, k) + 2
  {
    match op
    case Get(g) =>
      LruGetEffect(capacity, c.entries, g);
      GetAges(capacity, c.entries, g, k);
    case Add(o) =>
      AddAges(capacity, c.entries, Entry(GenericKey(o), Compact(o)), k);
      AddAges(capacity, LruAdd(capacity, c.entries, GenericKey(o), Compact(o)), Entry(VersionedKey(o), Compact(o)), k);
  }

  /** A version that has just been accepted ages by at most two with every operation. */
  lemma {:induction false} AcceptedVersionAges(capacity: nat, ops: seq<Op>, cs: seq<Cache>, p: nat, n: nat)
    requires IsHistory(capacity, ops, cs) && p < |ops| && ops[p].Add? && Accepts(cs[p].entries, ops[p].item)
    requires p + 1 + n <= |ops| && 2 * n < capacity
    ensures var es, k := cs[p + 1 + n].entries, VersionedKey(ops[p].item);
            LruValid(capacity, es) && Resident(es, k) && Age(es, k) <= 2 * n
    decreases n
  {
    if n == 0 {
      assert IsStep(capacity, cs[p], ops[p], cs[p + 1]);
      TwoKeyInvariantHolds(capacity, ops, cs, p);
      AcceptedIsYoungest(capacity, cs[p].entries, ops[p].item);
    } else {
      AcceptedVersionAges(capacity, ops, cs, p, n - 1);
      assert IsStep(capacity, cs[p + n], ops[p + n], cs[p + n + 1]);
      StepAges(capacity, cs[p + n], ops[p + n], VersionedKey(ops[p].item));
    }
  }

  lemma AcceptedIsYoungest(capacity: nat, es: seq<Entry>, o: ApiObject)
    requires capacity > 0 && LruValid(capacity, es)
    ensures var r := Inserted(capacity, es, o);
            LruValid(capacity, r) && Resident(r, VersionedKey(o)) && Age(r, VersionedKey(o)) == 0
  {
    LruAddEffect(capacity, es, GenericKey(o), Compact(o));
    LruAddEffect(capacity, LruAdd(capacity, es, GenericKey(o), Compact(o)), VersionedKey(o), Compact(o));
    KeyAt(Inserted(capacity, es, o), VersionedKey(o), 0);
  }

  /** So the same version is not emitted again before half the capacity in operations has gone
      by, whatever these are. */
  lemma NoEarlyReemission(capacity: nat, ops: seq<Op>, cs: seq<Cache>, p: nat, q: nat)
    requires IsHistory(capacity, ops, cs) && p < q < |ops| && ops[p].Add? && ops[q].Add?
    requires VersionedKey(ops[p].item) == VersionedKey(ops[q].item)
    requires Accepts(cs[p].entries, ops[p].item) && Accepts(cs[q].entries, ops[q].item)
    ensures 2 * (q - p - 1) >= capacity
  {
    if 2 * (q - p - 1) < capacity {
      AcceptedVersionAges(capacity, ops, cs, p, q - p - 1);
    }
  }

  /** The cache object itself. */
  class LruWithIndexer {
    const capacity: nat
    var entries: seq<Entry>
    var emitted: seq<ApiObject>

    constructor (capacity: nat)
      ensures this.capacity == capacity && entries == [] && emitted == []
    {
      this.capacity, entries, emitted := capacity, [], [];
    }

    method Add(item: ApiObject) returns (isNew: bool)
      modifies this
      ensures isNew <==> Accepts(old(entries), item)
      ensures Cache(entries, emitted) == Perform(capacity, Cache(old(entries), old(emitted)), Op.Add(item))
    {
      var seen := Resident(entries, VersionedKey(item));
      if seen { return false; }
      var compacted := Compact(item);
      entries := LruAdd(capacity, entries, GenericKey(item), compacted);
      entries := LruAdd(capacity, entries, VersionedKey(item), compacted);
      emitted := emitted + [item];
      return true;
    }

    method Get(key: string) returns (found: Option<ApiObject>)
      modifies this
      ensures found == Lookup(old(entries), key)
      ensures Cache(entries, emitted) == Perform(capacity, Cache(old(entries), old(emitted)), Op.Get(key))
    {
      found := Lookup(entries, key);
      entries := LruGet(entries, key);
    }
  }
}
