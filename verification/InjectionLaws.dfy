/** The algebra of injection and removal, for every pod spec and every mutator. */
module InjectionLaws {
  import opened Sequences
  import opened PodSpecs
  import opened Injection

  lemma InjectedEnvKeys(m1: Mutator, m2: Mutator, name: string)
    ensures SameKeys(EnvName, InjectedEnv(m1, name), InjectedEnv(m2, name))
    ensures DistinctKeys(EnvName, InjectedEnv(m1, name))
    ensures forall x :: x in InjectedEnv(m1, name) ==> x.name in REMOVED_ENV
    ensures forall k :: k in REMOVED_ENV ==> HasKey(EnvName, InjectedEnv(m1, name), k)
  {
    var xs := InjectedEnv(m1, name);
    EnvNamesDistinct();
    // The injected order is the removal list rotated by one.
    assert xs[0].name == REMOVED_ENV[6];
    assert forall i :: 0 < i < 7 ==> xs[i].name == REMOVED_ENV[i - 1];
    forall k | k in REMOVED_ENV ensures HasKey(EnvName, xs, k) {
      var i :| 0 <= i < 7 && REMOVED_ENV[i] == k;
      assert EnvName(xs[if i == 6 then 0 else i + 1]) == k;
    }
  }

  // ---------------------------------------------------------------- injection absorbs injection

  lemma ContainerAbsorbs(m1: Mutator, m2: Mutator, c: Container)
    ensures InjectContainer(m2, InjectContainer(m1, c)) == InjectContainer(m2, c)
  {
    UpsertAbsorbs(MountPath, c.volumeMounts.Elems(), InjectedMount(), InjectedMount());
    InjectedEnvKeys(m1, m2, c.name);
    UpsertAllAbsorbs(EnvName, c.env.Elems(), InjectedEnv(m1, c.name), InjectedEnv(m2, c.name));
  }

  /** Injecting with one configuration and then another gives exactly what the second gives
      on its own, positions included. */
  lemma InjectionAbsorbsInjection(m1: Mutator, m2: Mutator, s: PodSpec)
    ensures InjectPodSpec(m2, InjectPodSpec(m1, s)) == InjectPodSpec(m2, s)
  {
    UpsertAbsorbs(VolumeName, s.volumes.Elems(), InjectedVolume(), InjectedVolume());
    UpsertAbsorbs(ContainerName, s.initContainers.Elems(),
                  InjectedInitContainer(m1, s.securityContext), InjectedInitContainer(m2, s.securityContext));
    var cs := s.containers.Elems();
    forall i | 0 <= i < |cs| ensures InjectContainer(m2, InjectContainer(m1, cs[i])) == InjectContainer(m2, cs[i]) {
      ContainerAbsorbs(m1, m2, cs[i]);
    }
    assert InjectContainers(m2, InjectContainers(m1, cs)) == InjectContainers(m2, cs);
  }

  // ---------------------------------------------------------------- fixed points of injection

  ghost predicate FirstIs<T, K>(key: T -> K, s: seq<T>, x: T) {
    HasKey(key, s, key(x)) && s[FirstIndex(key, s, key(x))] == x
  }

  /** A fully instrumented container: the first mount at the mount point and the first variable
      of each of the seven names are the injected ones. */
  ghost predicate ContainerInstrumentedBy(m: Mutator, c: Container) {
    && c.volumeMounts.Items? && FirstIs(MountPath, c.volumeMounts.items, InjectedMount())
    && c.env.Items? && forall x :: x in InjectedEnv(m, c.name) ==> FirstIs(EnvName, c.env.items, x)
  }

  ghost predicate InstrumentedBy(m: Mutator, s: PodSpec) {
    && s.volumes.Items? && FirstIs(VolumeName, s.volumes.items, InjectedVolume())
    && s.initContainers.Items?
    && FirstIs(ContainerName, s.initContainers.items, InjectedInitContainer(m, s.securityContext))
    && s.containers.Items?
    && forall i :: 0 <= i < |s.containers.items| ==> ContainerInstrumentedBy(m, s.containers.items[i])
  }

  lemma UpsertFixedPoint<T, K>(key: T -> K, s: seq<T>, x: T)
    ensures Upsert(key, s, x) == s <==> FirstIs(key, s, x)
  {}

  lemma {:induction false} UpsertAllFixedPoint<T, K>(key: T -> K, s: seq<T>, xs: seq<T>)
    requires DistinctKeys(key, xs)
    ensures UpsertAll(key, s, xs) == s <==> forall x :: x in xs ==> FirstIs(key, s, x)
    decreases |xs|
  {
    UpsertAllShape(key, s, xs);
    if forall x :: x in xs ==> FirstIs(key, s, x) {
      if xs != [] {
        UpsertFixedPoint(key, s, xs[0]);
        UpsertAllFixedPoint(key, s, xs[1..]);
      }
    }
  }

  lemma ContainerFixedPoint(m: Mutator, c: Container)
    ensures InjectContainer(m, c) == c <==> ContainerInstrumentedBy(m, c)
  {
    UpsertFixedPoint(MountPath, c.volumeMounts.Elems(), InjectedMount());
    InjectedEnvKeys(m, m, c.name);
    UpsertAllFixedPoint(EnvName, c.env.Elems(), InjectedEnv(m, c.name));
  }

  /** The webhook's `reflect.DeepEqual` test reports "nothing to do" on exactly the pod specs
      that are fully instrumented for that mutator. */
  lemma FixedPointsAreInstrumented(m: Mutator, s: PodSpec)
    ensures InjectPodSpec(m, s) == s <==> InstrumentedBy(m, s)
  {
    UpsertFixedPoint(VolumeName, s.volumes.Elems(), InjectedVolume());
    UpsertFixedPoint(ContainerName, s.initContainers.Elems(), InjectedInitContainer(m, s.securityContext));
    var cs := s.containers.Elems();
    forall i | 0 <= i < |cs| ensures InjectContainer(m, cs[i]) == cs[i] <==> ContainerInstrumentedBy(m, cs[i]) {
      ContainerFixedPoint(m, cs[i]);
    }
    assert InjectContainers(m, cs) == cs <==> forall i :: 0 <= i < |cs| ==> ContainerInstrumentedBy(m, cs[i]);
  }

  lemma InjectionInstruments(m: Mutator, s: PodSpec)
    ensures InstrumentedBy(m, InjectPodSpec(m, s))
    ensures InjectPodSpec(m, InjectPodSpec(m, s)) == InjectPodSpec(m, s)
  {
    InjectionAbsorbsInjection(m, m, s);
    FixedPointsAreInstrumented(m, InjectPodSpec(m, s));
  }

  // ---------------------------------------------------------------- removal after injection

  /** Read every nil list as an empty one. */
  function EmptyForNilContainer(c: Container): Container {
    c.(volumeMounts := Items(c.volumeMounts.Elems()), env := Items(c.env.Elems()))
  }

  function EmptyForNilContainers(cs: seq<Container>): (r: seq<Container>)
    ensures |r| == |cs|
    ensures forall i :: 0 <= i < |cs| ==> r[i] == EmptyForNilContainer(cs[i])
  {
    seq(|cs|, i requires 0 <= i < |cs| => EmptyForNilContainer(cs[i]))
  }

  function EmptyForNil(s: PodSpec): PodSpec {
    s.(volumes := Items(s.volumes.Elems()),
       initContainers := Items(s.initContainers.Elems()),
       containers := Items(EmptyForNilContainers(s.containers.Elems())))
  }

  predicate MountOverwriteHarmless(c: Container) {
    var mounts := c.volumeMounts.Elems();
    var p := FirstIndex(MountPath, mounts, INJECTOR_MOUNT_POINT);
    p < |mounts| ==> mounts[p].name == INJECTOR_VOLUME
  }

  /** Injection overwrites nothing but what removal would have taken away anyway. */
  predicate OverwritesHarmless(s: PodSpec) {
    var vs, ics, cs := s.volumes.Elems(), s.initContainers.Elems(), s.containers.Elems();
    var v, c := FirstIndex(VolumeName, vs, INJECTOR_VOLUME), FirstIndex(ContainerName, ics, INJECTOR_CONTAINER);
    && (v < |vs| ==> IsInjectorVolume(vs[v]))
    && (c < |ics| ==> IsInjectorContainer("", ics[c]))
    && (forall i :: 0 <= i < |cs| ==> MountOverwriteHarmless(cs[i]))
  }

  lemma EnvRemovalAbsorbs(m: Mutator, name: string, env: seq<EnvVar>)
    ensures Filter(KeepEnv, UpsertAll(EnvName, env, InjectedEnv(m, name))) == Filter(KeepEnv, env)
  {
    InjectedEnvKeys(m, m, name);
    FilterAbsorbsUpsertAll(EnvName, KeepEnv, env, InjectedEnv(m, name));
  }

  lemma ContainerRemovalAbsorbs(m: Mutator, c: Container)
    ensures RemoveFromContainer(InjectContainer(m, c)) == EmptyForNilContainer(RemoveFromContainer(c))
            <==> MountOverwriteHarmless(c)
  {
    EnvRemovalAbsorbs(m, c.name, c.env.Elems());
    FilterAbsorbsUpsert(MountPath, KeepMount, c.volumeMounts.Elems(), InjectedMount());
  }

  lemma ContainersRemovalAbsorbs(m: Mutator, cs: seq<Container>)
    ensures RemoveFromContainers(InjectContainers(m, cs)) == EmptyForNilContainers(RemoveFromContainers(cs))
            <==> forall i :: 0 <= i < |cs| ==> MountOverwriteHarmless(cs[i])
  {
    var both, alone := RemoveFromContainers(InjectContainers(m, cs)), EmptyForNilContainers(RemoveFromContainers(cs));
    forall i | 0 <= i < |cs| ensures both[i] == alone[i] <==> MountOverwriteHarmless(cs[i]) {
      ContainerRemovalAbsorbs(m, cs[i]);
    }
  }

  /** Removing after injecting is the same as just removing, exactly when injection did not
      overwrite a foreign volume, init container or mount that happened to use its names. */
  lemma RemovalAbsorbsInjection(m: Mutator, s: PodSpec)
    ensures RemovePodSpec(InjectPodSpec(m, s)) == EmptyForNil(RemovePodSpec(s)) <==> OverwritesHarmless(s)
  {
    var v, ic := InjectedVolume(), InjectedInitContainer(m, s.securityContext);
    var vs, ics, cs := s.volumes.Elems(), s.initContainers.Elems(), s.containers.Elems();
    RemovalOfInjected(m, s);
    FilterAbsorbsUpsert(VolumeName, KeepVolume, vs, v);
    FilterAbsorbsUpsert(ContainerName, KeepInitContainer, ics, ic);
    ContainersRemovalAbsorbs(m, cs);
  }

  lemma RemovalOfInjected(m: Mutator, s: PodSpec)
    ensures var v, ic := InjectedVolume(), InjectedInitContainer(m, s.securityContext);
            RemovePodSpec(InjectPodSpec(m, s)) ==
            s.(volumes := Items(Filter(KeepVolume, Upsert(VolumeName, s.volumes.Elems(), v))),
               initContainers := Items(Filter(KeepInitContainer, Upsert(ContainerName, s.initContainers.Elems(), ic))),
               containers := Items(RemoveFromContainers(InjectContainers(m, s.containers.Elems()))))
    ensures EmptyForNil(RemovePodSpec(s)) ==
            s.(volumes := Items(Filter(KeepVolume, s.volumes.Elems())),
               initContainers := Items(Filter(KeepInitContainer, s.initContainers.Elems())),
               containers := Items(EmptyForNilContainers(RemoveFromContainers(s.containers.Elems()))))
  {}

  /** Nothing in the spec uses a name or path that belongs to Lumigo. */
  predicate ContainerLumigoFree(c: Container) {
    && (forall v :: v in c.volumeMounts.Elems() ==> v.name != INJECTOR_VOLUME && v.mountPath != INJECTOR_MOUNT_POINT)
    && (forall e :: e in c.env.Elems() ==> e.name !in REMOVED_ENV)
  }

  predicate LumigoFree(s: PodSpec) {
    && (forall v :: v in s.volumes.Elems() ==> v.name != INJECTOR_VOLUME)
    && (forall c :: c in s.initContainers.Elems() ==> c.name != INJECTOR_CONTAINER)
    && (forall i :: 0 <= i < |s.containers.Elems()| ==> ContainerLumigoFree(s.containers.Elems()[i]))
  }

  lemma FilterUndoesUpsert<T, K>(key: T -> K, keep: T -> bool, s: seq<T>, x: T)
    requires !keep(x)
    ensures Filter(keep, Upsert(key, s, x)) == s <==> !HasKey(key, s, key(x)) && forall y :: y in s ==> keep(y)
  {
    FilterAbsorbsUpsert(key, keep, s, x);
    FilterIdentity(keep, s);
    if Filter(keep, Upsert(key, s, x)) == s {
      assert forall i :: 0 <= i < |s| ==> s[i] in Filter(keep, Upsert(key, s, x));
    }
  }

  lemma HasKeyMeansIn<T, K>(key: T -> K, s: seq<T>, k: K)
    ensures HasKey(key, s, k) <==> exists x :: x in s && key(x) == k
  {}

  lemma ContainerRoundTrip(m: Mutator, c: Container)
    ensures RemoveFromContainer(InjectContainer(m, c)) == EmptyForNilContainer(c) <==> ContainerLumigoFree(c)
  {
    var mounts, env := c.volumeMounts.Elems(), c.env.Elems();
    FilterUndoesUpsert(MountPath, KeepMount, mounts, InjectedMount());
    HasKeyMeansIn(MountPath, mounts, INJECTOR_MOUNT_POINT);
    EnvRemovalAbsorbs(m, c.name, env);
    FilterIdentity(KeepEnv, env);
  }

  lemma VolumesRoundTrip(vs: seq<Volume>)
    ensures Filter(KeepVolume, Upsert(VolumeName, vs, InjectedVolume())) == vs
            <==> forall v :: v in vs ==> v.name != INJECTOR_VOLUME
  {
    FilterUndoesUpsert(VolumeName, KeepVolume, vs, InjectedVolume());
    HasKeyMeansIn(VolumeName, vs, INJECTOR_VOLUME);
  }

  lemma InitContainersRoundTrip(m: Mutator, pod: PodSecurityContext, ics: seq<Container>)
    ensures Filter(KeepInitContainer, Upsert(ContainerName, ics, InjectedInitContainer(m, pod))) == ics
            <==> forall c :: c in ics ==> c.name != INJECTOR_CONTAINER
  {
    FilterUndoesUpsert(ContainerName, KeepInitContainer, ics, InjectedInitContainer(m, pod));
    HasKeyMeansIn(ContainerName, ics, INJECTOR_CONTAINER);
  }

  lemma ContainersRoundTrip(m: Mutator, cs: seq<Container>)
    ensures RemoveFromContainers(InjectContainers(m, cs)) == EmptyForNilContainers(cs)
            <==> forall i :: 0 <= i < |cs| ==> ContainerLumigoFree(cs[i])
  {
    var both, plain := RemoveFromContainers(InjectContainers(m, cs)), EmptyForNilContainers(cs);
    forall i | 0 <= i < |cs| ensures both[i] == plain[i] <==> ContainerLumigoFree(cs[i]) {
      ContainerRoundTrip(m, cs[i]);
    }
  }

  /** Injection followed by removal restores a pod spec exactly when the spec was free of
      everything that carries Lumigo's names. */
  lemma RoundTrip(m: Mutator, s: PodSpec)
    ensures RemovePodSpec(InjectPodSpec(m, s)) == EmptyForNil(s) <==> LumigoFree(s)
  {
    VolumesRoundTrip(s.volumes.Elems());
    InitContainersRoundTrip(m, s.securityContext, s.initContainers.Elems());
    ContainersRoundTrip(m, s.containers.Elems());
  }

  // ---------------------------------------------------------------- removal on its own

  /** Whatever removal produces, no mutator takes it for instrumented: without the skip marker
      the next admission would inject again. */
  lemma RemovedIsNeverInstrumented(m: Mutator, s: PodSpec)
    ensures InjectPodSpec(m, RemovePodSpec(s)) != RemovePodSpec(s)
  {
    var t := RemovePodSpec(s);
    var ic := InjectedInitContainer(m, t.securityContext);
    FixedPointsAreInstrumented(m, t);
    assert !KeepInitContainer(ic);
  }

  predicate ContainerUntouchedByRemoval(c: Container) {
    && c.env.Items?
    && (forall e :: e in c.env.items ==> KeepEnv(e))
    && (forall v :: v in c.volumeMounts.Elems() ==> KeepMount(v))
  }

  predicate UntouchedByRemoval(s: PodSpec) {
    && (forall v :: v in s.volumes.Elems() ==> KeepVolume(v))
    && (forall c :: c in s.initContainers.Elems() ==> KeepInitContainer(c))
    && s.containers.Items?
    && (forall i :: 0 <= i < |s.containers.items| ==> ContainerUntouchedByRemoval(s.containers.items[i]))
  }

  lemma FilterSliceIdentity<T>(keep: T -> bool, s: Slice<T>)
    ensures FilterSlice(keep, s) == s <==> forall x :: x in s.Elems() ==> keep(x)
  {
    FilterIdentity(keep, s.Elems());
  }

  lemma ContainersUntouched(cs: seq<Container>)
    ensures RemoveFromContainers(cs) == cs <==> forall i :: 0 <= i < |cs| ==> ContainerUntouchedByRemoval(cs[i])
  {
    forall i | 0 <= i < |cs| ensures RemoveFromContainer(cs[i]) == cs[i] <==> ContainerUntouchedByRemoval(cs[i]) {
      FilterSliceIdentity(KeepMount, cs[i].volumeMounts);
      FilterSliceIdentity(KeepEnv, cs[i].env);
    }
  }

  /** When removal reports no mutation. A container whose environment list is nil counts as
      mutated, although nothing of Lumigo's was in it. */
  lemma RemovalReportsNothing(s: PodSpec)
    ensures RemovePodSpec(s) == s <==> UntouchedByRemoval(s)
  {
    FilterSliceIdentity(KeepVolume, s.volumes);
    FilterSliceIdentity(KeepInitContainer, s.initContainers);
    ContainersUntouched(s.containers.Elems());
  }

  lemma RemovalIsIdempotent(s: PodSpec)
    ensures RemovePodSpec(RemovePodSpec(s)) == RemovePodSpec(s)
  {
    RemovalReportsNothing(RemovePodSpec(s));
  }

  // ---------------------------------------------------------------- the checker and the frame

  /** The entries that injection leaves in place satisfy the checker. */
  predicate LeftoversConform(m: Mutator, c: Container) {
    var env, mounts := c.env.Elems(), c.volumeMounts.Elems();
    && (forall i :: 0 <= i < |env| && !IsFirst(EnvName, env, i) ==> EnvConforms(m.endpoint, m.enableLogs, env[i]))
    && (forall i :: 0 <= i < |mounts| && i != FirstIndex(MountPath, mounts, INJECTOR_MOUNT_POINT) ==>
        MountConforms(mounts[i]))
  }

  lemma InjectedEnvConforms(m: Mutator, name: string)
    ensures forall x :: x in InjectedEnv(m, name) ==> EnvConforms(m.endpoint, m.enableLogs, x)
  {
    var xs := InjectedEnv(m, name);
    EnvNamesDistinct();
    ParseFormatBool(m.enableLogs);
    assert REMOVED_ENV[0] == TRACER_TOKEN_ENV && REMOVED_ENV[1] == ENDPOINT_ENV && REMOVED_ENV[3] == ENABLE_LOGS_ENV
        && REMOVED_ENV[6] == LD_PRELOAD_ENV;
    assert xs[0].name == REMOVED_ENV[6];
    assert forall i :: 0 < i < 7 ==> xs[i].name == REMOVED_ENV[i - 1];
  }

  lemma EnvCheck(m: Mutator, name: string, env: seq<EnvVar>)
    ensures EnvInstrumented(m.endpoint, m.enableLogs, UpsertAll(EnvName, env, InjectedEnv(m, name)))
            <==> forall i :: 0 <= i < |env| && !IsFirst(EnvName, env, i) ==>
                EnvConforms(m.endpoint, m.enableLogs, env[i])
  {
    var xs := InjectedEnv(m, name);
    var r := UpsertAll(EnvName, env, xs);
    assert UpsertShape(EnvName, env, xs, r) by {
      InjectedEnvKeys(m, m, name);
      UpsertAllShape(EnvName, env, xs);
    }
    InjectedEnvConforms(m, name);
    forall e: EnvVar | !HasKey(EnvName, xs, e.name) ensures EnvConforms(m.endpoint, m.enableLogs, e) {
      CheckedNamesRemoved();
      InjectedEnvKeys(m, m, name);
    }
    CheckedNamesWritten(m, name, env, r);
    EnvShapeCheck(m, env, xs, r);
  }

  lemma EnvShapeCheck(m: Mutator, env: seq<EnvVar>, xs: seq<EnvVar>, r: seq<EnvVar>)
    requires UpsertShape(EnvName, env, xs, r)
    requires forall x :: x in xs ==> EnvConforms(m.endpoint, m.enableLogs, x)
    requires forall e: EnvVar :: !HasKey(EnvName, xs, e.name) ==> EnvConforms(m.endpoint, m.enableLogs, e)
    ensures (forall i :: 0 <= i < |r| ==> EnvConforms(m.endpoint, m.enableLogs, r[i]))
            <==> (forall i :: 0 <= i < |env| && !IsFirst(EnvName, env, i) ==>
                EnvConforms(m.endpoint, m.enableLogs, env[i]))
  {
    var ok := (e: EnvVar) => EnvConforms(m.endpoint, m.enableLogs, e);
    assert forall e :: ok(e) == EnvConforms(m.endpoint, m.enableLogs, e);
    ShapeCheck(EnvName, env, xs, r, ok);
  }

  lemma CheckedNamesWritten(m: Mutator, name: string, env: seq<EnvVar>, r: seq<EnvVar>)
    requires UpsertShape(EnvName, env, InjectedEnv(m, name), r)
    ensures HasKey(EnvName, r, LD_PRELOAD_ENV) && HasKey(EnvName, r, TRACER_TOKEN_ENV)
    ensures HasKey(EnvName, r, ENDPOINT_ENV) && HasKey(EnvName, r, ENABLE_LOGS_ENV)
  {
    var xs := InjectedEnv(m, name);
    assert xs[0] in xs && xs[1] in xs && xs[2] in xs && xs[4] in xs;
  }

  lemma CheckedNamesRemoved()
    ensures LD_PRELOAD_ENV in REMOVED_ENV && TRACER_TOKEN_ENV in REMOVED_ENV
    ensures ENDPOINT_ENV in REMOVED_ENV && ENABLE_LOGS_ENV in REMOVED_ENV
  {
    assert REMOVED_ENV[0] == TRACER_TOKEN_ENV && REMOVED_ENV[1] == ENDPOINT_ENV && REMOVED_ENV[3] == ENABLE_LOGS_ENV
        && REMOVED_ENV[6] == LD_PRELOAD_ENV;
  }

  /** Which variable carries which setting of the mutator. */
  lemma ContainerConfigured(m: Mutator, c: Container)
    ensures var env := InjectContainer(m, c).env.items;
            && FirstIs(EnvName, env, EnvVar("LD_PRELOAD", "/opt/lumigo/injector/lumigo_injector.so", None))
            && FirstIs(EnvName, env,
                EnvVar("LUMIGO_TRACER_TOKEN", "", Some(SecretKeyRef(m.secretName, m.secretKey, Some(true)))))
            && FirstIs(EnvName, env, EnvVar("LUMIGO_ENDPOINT", m.endpoint, None))
            && FirstIs(EnvName, env, EnvVar("LUMIGO_LOGS_ENDPOINT", m.logsEndpoint, None))
            && FirstIs(EnvName, env, EnvVar("LUMIGO_ENABLE_LOGS", if m.enableLogs then "true" else "false", None))
            && FirstIs(EnvName, env, EnvVar("LUMIGO_ENABLE_TRACES", if m.enableTraces then "true" else "false", None))
            && FirstIs(EnvName, env, EnvVar("LUMIGO_CONTAINER_NAME", c.name, None))
  {
    var xs := InjectedEnv(m, c.name);
    var env := InjectContainer(m, c).env.items;
    assert forall x :: x in xs ==> FirstIs(EnvName, env, x) by {
      InjectedEnvKeys(m, m, c.name);
      UpsertAllShape(EnvName, c.env.Elems(), xs);
    }
    assert xs[0] in xs && xs[1] in xs && xs[2] in xs && xs[3] in xs && xs[4] in xs && xs[5] in xs && xs[6] in xs;
  }

  /** An injected container passes the instrumentation check exactly when the duplicates and
      stray mounts that injection leaves alone pass it. */
  lemma InjectionMeetsChecker(m: Mutator, c: Container)
    ensures ContainerInstrumented(m.endpoint, m.enableLogs, InjectContainer(m, c)) <==> LeftoversConform(m, c)
  {
    EnvCheck(m, c.name, c.env.Elems());
    MountCheck(c.volumeMounts.Elems());
  }

  lemma MountCheck(mounts: seq<VolumeMount>)
    ensures MountsInstrumented(Upsert(MountPath, mounts, InjectedMount()))
            <==> forall i :: 0 <= i < |mounts| && i != FirstIndex(MountPath, mounts, INJECTOR_MOUNT_POINT) ==>
                MountConforms(mounts[i])
  {
    var r := Upsert(MountPath, mounts, InjectedMount());
    var p := FirstIndex(MountPath, mounts, INJECTOR_MOUNT_POINT);
    assert r[p] == InjectedMount() && MountName(r[p]) == INJECTOR_VOLUME && MountConforms(r[p]);
    assert |r| == (if p < |mounts| then |mounts| else |mounts| + 1);
    assert forall i :: 0 <= i < |mounts| && i != p ==> r[i] == mounts[i];
    assert HasKey(MountName, r, INJECTOR_VOLUME);
  }

  /** Containers with unique variable names and mount paths that mount the Lumigo volume
      nowhere else always pass. */
  lemma WellFormedContainersPass(m: Mutator, c: Container)
    requires DistinctKeys(EnvName, c.env.Elems()) && DistinctKeys(MountPath, c.volumeMounts.Elems())
    requires forall v :: v in c.volumeMounts.Elems() && v.name == INJECTOR_VOLUME ==>
              v.mountPath == INJECTOR_MOUNT_POINT
    ensures ContainerInstrumented(m.endpoint, m.enableLogs, InjectContainer(m, c))
  {
    InjectionMeetsChecker(m, c);
    var env, mounts := c.env.Elems(), c.volumeMounts.Elems();
    forall i | 0 <= i < |env| ensures IsFirst(EnvName, env, i) {
      assert FirstIndex(EnvName, env, EnvName(env[i])) <= i;
    }
  }

  lemma MountsFrame(m: Mutator, c: Container)
    ensures var d, mounts := InjectContainer(m, c), c.volumeMounts.Elems();
            && |mounts| <= |d.volumeMounts.items|
            && forall j :: 0 <= j < |mounts| && mounts[j].mountPath != INJECTOR_MOUNT_POINT
                 ==> d.volumeMounts.items[j] == mounts[j]
  {}

  lemma EnvFrame(m: Mutator, c: Container)
    ensures var d, env := InjectContainer(m, c), c.env.Elems();
            && |env| <= |d.env.items|
            && (forall j :: 0 <= j < |env| && env[j].name !in REMOVED_ENV ==> d.env.items[j] == env[j])
            && (forall j :: |env| <= j < |d.env.items| ==> d.env.items[j] in InjectedEnv(m, c.name))
  {
    var env, xs := c.env.Elems(), InjectedEnv(m, c.name);
    InjectedEnvKeys(m, m, c.name);
    UpsertAllShape(EnvName, env, xs);
    ShapeFrame(env, xs, UpsertAll(EnvName, env, xs));
  }

  lemma ShapeFrame(env: seq<EnvVar>, xs: seq<EnvVar>, r: seq<EnvVar>)
    requires UpsertShape(EnvName, env, xs, r) && forall x :: x in xs ==> x.name in REMOVED_ENV
    ensures |env| <= |r| && forall j :: 0 <= j < |env| && env[j].name !in REMOVED_ENV ==> r[j] == env[j]
    ensures forall j :: |env| <= j < |r| ==> r[j] in xs
  {
    forall k | HasKey(EnvName, xs, k) ensures k in REMOVED_ENV {
      assert xs[FirstIndex(EnvName, xs, k)] in xs;
    }
  }

  /** Everything foreign in a container keeps its index and its value; only injected
      variables are appended. */
  lemma ContainerFrame(m: Mutator, c: Container)
    ensures var d := InjectContainer(m, c);
            && d == c.(env := d.env, volumeMounts := d.volumeMounts)
            && (forall j :: 0 <= j < |c.volumeMounts.Elems()|
                            && c.volumeMounts.Elems()[j].mountPath != INJECTOR_MOUNT_POINT
                            ==> d.volumeMounts.items[j] == c.volumeMounts.Elems()[j])
            && |c.env.Elems()| <= |d.env.items|
            && (forall j :: 0 <= j < |c.env.Elems()| && c.env.Elems()[j].name !in REMOVED_ENV
                  ==> d.env.items[j] == c.env.Elems()[j])
            && (forall j :: |c.env.Elems()| <= j < |d.env.items| ==> d.env.items[j] in InjectedEnv(m, c.name))
  {
    MountsFrame(m, c);
    EnvFrame(m, c);
  }

  /** The same for the pod spec around the containers. */
  lemma InjectionFrames(m: Mutator, s: PodSpec)
    ensures var t := InjectPodSpec(m, s);
            && t == s.(volumes := t.volumes, initContainers := t.initContainers, containers := t.containers)
            && |t.containers.items| == |s.containers.Elems()|
            && (forall j :: 0 <= j < |s.volumes.Elems()| && s.volumes.Elems()[j].name != INJECTOR_VOLUME
                  ==> t.volumes.items[j] == s.volumes.Elems()[j])
            && (forall j :: 0 <= j < |s.initContainers.Elems()|
                            && s.initContainers.Elems()[j].name != INJECTOR_CONTAINER
                            ==> t.initContainers.items[j] == s.initContainers.Elems()[j])
            && InjectedVolume() in t.volumes.items && IsInjectorVolume(InjectedVolume())
            && InjectedInitContainer(m, s.securityContext) in t.initContainers.items
            && (forall image: string :: IsInjectorContainer(image, InjectedInitContainer(m, s.securityContext)) <==>
                                          image == "" || image == m.injectorImage)
  {
    var t := InjectPodSpec(m, s);
    var v, c := InjectedVolume(), InjectedInitContainer(m, s.securityContext);
    assert t.volumes.items[FirstIndex(VolumeName, s.volumes.Elems(), v.name)] == v;
    assert t.initContainers.items[FirstIndex(ContainerName, s.initContainers.Elems(), c.name)] == c;
  }

  // ---------------------------------------------------------------- what is written and taken away

  /** The injector init container and its volume, in full. */
  lemma InjectorIsConfigured(m: Mutator, s: PodSpec)
    ensures var t := InjectPodSpec(m, s);
            var i := FirstIndex(ContainerName, t.initContainers.Elems(), "lumigo-injector");
            && i < |t.initContainers.Elems()|
            && var c := t.initContainers.Elems()[i];
            && c.image == m.injectorImage && c.other == map[]
            && c.env == Items([EnvVar("TARGET_DIRECTORY", "/target", None)])
            && c.volumeMounts == Items([VolumeMount("lumigo-injector", false, "/target", "")])
            && c.securityContext.Some?
            && var sc := c.securityContext.value;
            && sc.allowPrivilegeEscalation == Some(false) && sc.privileged == Some(false)
            && sc.readOnlyRootFilesystem == Some(true) && sc.rest == ""
            && sc.runAsNonRoot == s.securityContext.runAsNonRoot
            && sc.runAsUser == sc.runAsGroup
            && (s.securityContext.fsGroup.Some? ==> sc.runAsUser == s.securityContext.fsGroup)
            && (s.securityContext.fsGroup.None? ==> sc.runAsUser == Some(1234))
    ensures var vs := InjectPodSpec(m, s).volumes.Elems();
            var i := FirstIndex(VolumeName, vs, "lumigo-injector");
            i < |vs| && vs[i] == Volume("lumigo-injector", Some(EmptyDirSource("", Some(200))), "")
  {
    InjectionInstruments(m, s);
  }

  /** The mount of every container, in full. */
  lemma MountIsConfigured(m: Mutator, c: Container)
    ensures var mounts := InjectContainer(m, c).volumeMounts.Elems();
            var i := FirstIndex(MountPath, mounts, "/opt/lumigo");
            i < |mounts| && mounts[i] == VolumeMount("lumigo-injector", true, "/opt/lumigo", "")
  {
    var mounts := c.volumeMounts.Elems();
    assert Upsert(MountPath, mounts, InjectedMount())[FirstIndex(MountPath, mounts, "/opt/lumigo")] == InjectedMount();
  }

  lemma {:induction false} FilterAgrees<T>(f: T -> bool, g: T -> bool, s: seq<T>)
    requires forall x :: x in s ==> f(x) == g(x)
    ensures Filter(f, s) == Filter(g, s)
  {
    if s != [] {
      FilterAgrees(f, g, s[1..]);
    }
  }

  /** Exactly what removal takes out of a pod spec around its containers. */
  lemma RemovalTakesExactly(s: PodSpec)
    ensures var t := RemovePodSpec(s);
            && t == s.(volumes := t.volumes, initContainers := t.initContainers, containers := t.containers)
            && t.volumes.Nil? == s.volumes.Nil? && t.initContainers.Nil? == s.initContainers.Nil?
            && t.volumes.Elems() ==
                 Filter((v: Volume) => !(v.name == "lumigo-injector" && v.emptyDir.Some?), s.volumes.Elems())
            && t.initContainers.Elems() ==
                 Filter((c: Container) => !(c.name == "lumigo-injector"
                                            && c.env == Items([EnvVar("TARGET_DIRECTORY", "/target", None)])
                                            && c.volumeMounts ==
                                                 Items([VolumeMount("lumigo-injector", false, "/target", "")])),
                        s.initContainers.Elems())
  {
    FilterAgrees(KeepVolume, (v: Volume) => !(v.name == "lumigo-injector" && v.emptyDir.Some?), s.volumes.Elems());
    FilterAgrees(KeepInitContainer,
                 (c: Container) => !(c.name == "lumigo-injector"
                                     && c.env == Items([EnvVar("TARGET_DIRECTORY", "/target", None)])
                                     && c.volumeMounts ==
                                          Items([VolumeMount("lumigo-injector", false, "/target", "")])),
                 s.initContainers.Elems());
  }

  /** And out of every container. */
  lemma RemovalTakesFromContainers(s: PodSpec, i: nat)
    requires i < |s.containers.Elems()|
    ensures var c, d := s.containers.Elems()[i], RemovePodSpec(s).containers.Elems()[i];
            && |RemovePodSpec(s).containers.Elems()| == |s.containers.Elems()|
            && d == c.(env := d.env, volumeMounts := d.volumeMounts)
            && d.volumeMounts.Nil? == c.volumeMounts.Nil?
            && d.volumeMounts.Elems() ==
                 Filter((v: VolumeMount) => v.name != "lumigo-injector", c.volumeMounts.Elems())
            && d.env == Items(Filter(
                 (e: EnvVar) => e.name !in ["LUMIGO_TRACER_TOKEN", "LUMIGO_ENDPOINT", "LUMIGO_LOGS_ENDPOINT",
                                            "LUMIGO_ENABLE_LOGS", "LUMIGO_ENABLE_TRACES", "LUMIGO_CONTAINER_NAME",
                                            "LD_PRELOAD"],
                 c.env.Elems()))
  {
    var c := s.containers.Elems()[i];
    FilterAgrees(KeepMount, (v: VolumeMount) => v.name != "lumigo-injector", c.volumeMounts.Elems());
    FilterAgrees(KeepEnv,
                 (e: EnvVar) => e.name !in ["LUMIGO_TRACER_TOKEN", "LUMIGO_ENDPOINT", "LUMIGO_LOGS_ENDPOINT",
                                            "LUMIGO_ENABLE_LOGS", "LUMIGO_ENABLE_TRACES", "LUMIGO_CONTAINER_NAME",
                                            "LD_PRELOAD"],
                 c.env.Elems());
  }
}
