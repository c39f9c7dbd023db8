/** `injectLumigoIntoPodSpec`, `removeLumigoFromPodSpec` and the recognisers they rely on. */
module Injection {
  import opened Sequences
  import opened PodSpecs

  // ---------------------------------------------------------------- what is injected

  function InjectedVolume(): Volume {
    Volume(INJECTOR_VOLUME, Some(EmptyDirSource("", Some(200))), "")
  }

  function InjectedInitContainer(m: Mutator, pod: PodSecurityContext): Container {
    var id := if pod.fsGroup.Some? then pod.fsGroup else Some(DEFAULT_INIT_USER);
    Container(
      INJECTOR_CONTAINER,
      m.injectorImage,
      Items([EnvVar(TARGET_DIRECTORY_ENV, TARGET_DIRECTORY_PATH, None)]),
      Items([VolumeMount(INJECTOR_VOLUME, false, TARGET_DIRECTORY_PATH, "")]),
      Some(SecurityContext(Some(false), Some(false), Some(true), pod.runAsNonRoot, id, id, "")),
      map[])
  }

  function InjectedMount(): VolumeMount {
    VolumeMount(INJECTOR_VOLUME, true, INJECTOR_MOUNT_POINT, "")
  }

  function InjectedEnv(m: Mutator, containerName: string): seq<EnvVar> {
    [ EnvVar(LD_PRELOAD_ENV, LD_PRELOAD_VALUE, None),
      EnvVar(TRACER_TOKEN_ENV, "", Some(SecretKeyRef(m.secretName, m.secretKey, Some(true)))),
      EnvVar(ENDPOINT_ENV, m.endpoint, None),
      EnvVar(LOGS_ENDPOINT_ENV, m.logsEndpoint, None),
      EnvVar(ENABLE_LOGS_ENV, FormatBool(m.enableLogs), None),
      EnvVar(ENABLE_TRACES_ENV, FormatBool(m.enableTraces), None),
      EnvVar(CONTAINER_NAME_ENV, containerName, None) ]
  }

  function InjectContainer(m: Mutator, c: Container): Container {
    c.(volumeMounts := Items(Upsert(MountPath, c.volumeMounts.Elems(), InjectedMount())),
       env := Items(UpsertAll(EnvName, c.env.Elems(), InjectedEnv(m, c.name))))
  }

  function InjectContainers(m: Mutator, cs: seq<Container>): (r: seq<Container>)
    ensures |r| == |cs|
    ensures forall i :: 0 <= i < |cs| ==> r[i] == InjectContainer(m, cs[i])
  {
    seq(|cs|, i requires 0 <= i < |cs| => InjectContainer(m, cs[i]))
  }

  function InjectPodSpec(m: Mutator, s: PodSpec): PodSpec {
    s.(volumes := Items(Upsert(VolumeName, s.volumes.Elems(), InjectedVolume())),
       initContainers :=
         Items(Upsert(ContainerName, s.initContainers.Elems(), InjectedInitContainer(m, s.securityContext))),
       containers := Items(InjectContainers(m, s.containers.Elems())))
  }

  // ---------------------------------------------------------------- what is removed

  /** `BeTheLumigoInjectorVolume().Match` */
  predicate IsInjectorVolume(v: Volume) {
    v.name == INJECTOR_VOLUME && v.emptyDir.Some?
  }

  /** `BeTheLumigoInjectorContainer(image).Match`; an empty image matches every image. */
  predicate IsInjectorContainer(image: string, c: Container) {
    && c.name == INJECTOR_CONTAINER
    && (|image| > 0 ==> c.image == image)
    && c.env == Items([EnvVar(TARGET_DIRECTORY_ENV, TARGET_DIRECTORY_PATH, None)])
    && c.volumeMounts == Items([VolumeMount(INJECTOR_VOLUME, false, TARGET_DIRECTORY_PATH, "")])
  }

  predicate KeepVolume(v: Volume) { !IsInjectorVolume(v) }
  predicate KeepInitContainer(c: Container) { !IsInjectorContainer("", c) }
  predicate KeepMount(v: VolumeMount) { v.name != INJECTOR_VOLUME }
  predicate KeepEnv(e: EnvVar) { e.name !in REMOVED_ENV }

  /** Filtering that leaves a nil slice nil. */
  function FilterSlice<T>(keep: T -> bool, s: Slice<T>): Slice<T> {
    if s.Nil? then Nil else Items(Filter(keep, s.items))
  }

  function RemoveFromContainer(c: Container): Container {
    c.(volumeMounts := FilterSlice(KeepMount, c.volumeMounts),
       env := Items(Filter(KeepEnv, c.env.Elems())))
  }

  function RemoveFromContainers(cs: seq<Container>): (r: seq<Container>)
    ensures |r| == |cs|
    ensures forall i :: 0 <= i < |cs| ==> r[i] == RemoveFromContainer(cs[i])
  {
    seq(|cs|, i requires 0 <= i < |cs| => RemoveFromContainer(cs[i]))
  }

  function RemovePodSpec(s: PodSpec): PodSpec {
    s.(volumes := FilterSlice(KeepVolume, s.volumes),
       initContainers := FilterSlice(KeepInitContainer, s.initContainers),
       containers := Items(RemoveFromContainers(s.containers.Elems())))
  }

  // ---------------------------------------------------------------- the mutators at work

  /** A pod spec that is rewritten in place. */
  class PodSpecObject {
    var volumes: Slice<Volume>
    var initContainers: Slice<Container>
    var containers: Slice<Container>
    var securityContext: PodSecurityContext
    var rest: string

    function Value(): PodSpec
      reads this
    {
      PodSpec(volumes, initContainers, containers, securityContext, rest)
    }

    /** `podTemplateSpec.Spec.DeepCopy()` runs the other way round; this builds the object. */
    constructor (s: PodSpec)
      ensures Value() == s
    {
      volumes, initContainers, containers := s.volumes, s.initContainers, s.containers;
      securityContext, rest := s.securityContext, s.rest;
    }

    method InjectLumigoIntoPodSpec(m: Mutator)
      modifies this
      ensures Value() == InjectPodSpec(m, old(Value()))
    {
      var vs := UpsertInto(VolumeName, volumes.Elems(), InjectedVolume());
      volumes := Items(vs);

      var cs := UpsertInto(ContainerName, initContainers.Elems(), InjectedInitContainer(m, securityContext));
      initContainers := Items(cs);

      var patched := PatchContainers(m, containers.Elems());
      containers := Items(patched);
    }

    method RemoveLumigoFromPodSpec()
      modifies this
      ensures Value() == RemovePodSpec(old(Value()))
    {
      if initContainers.Items? {
        var kept := Retain(KeepInitContainer, initContainers.items);
        initContainers := Items(kept);
      }
      if volumes.Items? {
        var kept := Retain(KeepVolume, volumes.items);
        volumes := Items(kept);
      }
      var stripped := StripContainers(containers.Elems());
      containers := Items(stripped);
    }
  }

  /** The container loop of injection. */
  method PatchContainers(m: Mutator, cs: seq<Container>) returns (patched: seq<Container>)
    ensures patched == InjectContainers(m, cs)
  {
    patched := [];
    for i := 0 to |cs|
      invariant |patched| == i
      invariant forall j :: 0 <= j < i ==> patched[j] == InjectContainer(m, cs[j])
    {
      var container := cs[i];
      var mounts := UpsertInto(MountPath, container.volumeMounts.Elems(), InjectedMount());
      var env := WriteInjectedEnv(m, container.name, container.env.Elems());
      patched := patched + [container.(volumeMounts := Items(mounts), env := Items(env))];
    }
  }

  /** The container loop of removal; the environment never stays nil. */
  method StripContainers(cs: seq<Container>) returns (stripped: seq<Container>)
    ensures stripped == RemoveFromContainers(cs)
  {
    stripped := [];
    for i := 0 to |cs|
      invariant |stripped| == i
      invariant forall j :: 0 <= j < i ==> stripped[j] == RemoveFromContainer(cs[j])
    {
      var container := cs[i];
      if container.volumeMounts.Items? {
        var mounts := Retain(KeepMount, container.volumeMounts.items);
        container := container.(volumeMounts := Items(mounts));
      }
      var env := Retain(KeepEnv, container.env.Elems());
      stripped := stripped + [container.(env := Items(env))];
    }
  }

  /** One "find the first match, overwrite it or append" block. */
  method UpsertInto<T, K(==)>(key: T -> K, s: seq<T>, x: T) returns (r: seq<T>)
    ensures r == Upsert(key, s, x)
  {
    var index := IndexOfKey(key, s, key(x));
    if index < 0 {
      r := s + [x];
    } else {
      r := s[index := x];
    }
  }

  /** The seven blocks that write the environment of one container. */
  method WriteInjectedEnv(m: Mutator, containerName: string, env: seq<EnvVar>) returns (r: seq<EnvVar>)
    ensures r == UpsertAll(EnvName, env, InjectedEnv(m, containerName))
  {
    var xs := InjectedEnv(m, containerName);
    r := env;
    for i := 0 to |xs|
      invariant UpsertAll(EnvName, r, xs[i..]) == UpsertAll(EnvName, env, xs)
    {
      assert xs[i..][0] == xs[i] && xs[i..][1..] == xs[i + 1..];
      r := UpsertInto(EnvName, r, xs[i]);
    }
  }

  // ---------------------------------------------------------------- the instrumentation check

  /** What the check expects of one environment variable. */
  predicate EnvConforms(endpoint: string, logsEnabled: bool, e: EnvVar) {
    && (e.name == LD_PRELOAD_ENV ==> e.value == LD_PRELOAD_VALUE)
    && (e.name == TRACER_TOKEN_ENV ==> e.valueFrom.Some?)
    && (e.name == ENDPOINT_ENV ==> e.value == endpoint)
    && (e.name == ENABLE_LOGS_ENV ==> ParseBool(e.value) == Some(logsEnabled))
  }

  predicate MountConforms(v: VolumeMount) {
    v.name == INJECTOR_VOLUME ==> v.readOnly && v.mountPath == INJECTOR_MOUNT_POINT
  }

  function MountName(v: VolumeMount): string { v.name }

  ghost predicate EnvInstrumented(endpoint: string, logsEnabled: bool, env: seq<EnvVar>) {
    && (forall i :: 0 <= i < |env| ==> EnvConforms(endpoint, logsEnabled, env[i]))
    && HasKey(EnvName, env, LD_PRELOAD_ENV) && HasKey(EnvName, env, TRACER_TOKEN_ENV)
    && HasKey(EnvName, env, ENDPOINT_ENV) && HasKey(EnvName, env, ENABLE_LOGS_ENV)
  }

  ghost predicate MountsInstrumented(mounts: seq<VolumeMount>) {
    && (forall i :: 0 <= i < |mounts| ==> MountConforms(mounts[i]))
    && HasKey(MountName, mounts, INJECTOR_VOLUME)
  }

  ghost predicate ContainerInstrumented(endpoint: string, logsEnabled: bool, c: Container) {
    EnvInstrumented(endpoint, logsEnabled, c.env.Elems()) && MountsInstrumented(c.volumeMounts.Elems())
  }

  /** `isContainerInstrumentedWithLumigo`, without the wording of its errors. */
  method IsContainerInstrumented(endpoint: string, logsEnabled: bool, c: Container) returns (ok: bool)
    ensures ok <==> ContainerInstrumented(endpoint, logsEnabled, c)
  {
    ok := IsEnvInstrumented(endpoint, logsEnabled, c.env.Elems());
    if ok {
      ok := AreMountsInstrumented(c.volumeMounts.Elems());
    }
  }

  /** The switch over one variable. */
  method Conforms(endpoint: string, logsEnabled: bool, e: EnvVar) returns (ok: bool)
    ensures ok <==> EnvConforms(endpoint, logsEnabled, e)
  {
    CheckedNamesDistinct();
    if e.name == LD_PRELOAD_ENV {
      return e.value == LD_PRELOAD_VALUE;
    } else if e.name == TRACER_TOKEN_ENV {
      return e.valueFrom.Some?;
    } else if e.name == ENDPOINT_ENV {
      return e.value == endpoint;
    } else if e.name == ENABLE_LOGS_ENV {
      var parsed := ParseBool(e.value);
      if parsed.None? { return false; }
      return parsed.value == logsEnabled;
    }
    return true;
  }

  method IsEnvInstrumented(endpoint: string, logsEnabled: bool, env: seq<EnvVar>) returns (ok: bool)
    ensures ok <==> EnvInstrumented(endpoint, logsEnabled, env)
  {
    var ldPreload, token, endpointFound, logs := false, false, false, false;
    for i := 0 to |env|
      invariant forall j :: 0 <= j < i ==> EnvConforms(endpoint, logsEnabled, env[j])
      invariant ldPreload == Seen(env, i, LD_PRELOAD_ENV) && token == Seen(env, i, TRACER_TOKEN_ENV)
      invariant endpointFound == Seen(env, i, ENDPOINT_ENV) && logs == Seen(env, i, ENABLE_LOGS_ENV)
    {
      var conforms := Conforms(endpoint, logsEnabled, env[i]);
      if !conforms { return false; }
      ldPreload := Spot(env, i, LD_PRELOAD_ENV, ldPreload);
      token := Spot(env, i, TRACER_TOKEN_ENV, token);
      endpointFound := Spot(env, i, ENDPOINT_ENV, endpointFound);
      logs := Spot(env, i, ENABLE_LOGS_ENV, logs);
    }
    return ldPreload && token && endpointFound && logs;
  }

  predicate Seen(env: seq<EnvVar>, i: nat, name: string) { FirstIndex(EnvName, env, name) < i }

  /** Keep a "found" flag up to date. */
  method Spot(env: seq<EnvVar>, i: nat, name: string, found: bool) returns (r: bool)
    requires i < |env| && found == Seen(env, i, name)
    ensures r == Seen(env, i + 1, name)
  {
    FoundBy(EnvName, env, name, i);
    r := found || env[i].name == name;
  }

  method AreMountsInstrumented(mounts: seq<VolumeMount>) returns (ok: bool)
    ensures ok <==> MountsInstrumented(mounts)
  {
    ok := false;
    for i := 0 to |mounts|
      invariant forall j :: 0 <= j < i ==> MountConforms(mounts[j])
      invariant ok <==> FirstIndex(MountName, mounts, INJECTOR_VOLUME) < i
    {
      if mounts[i].name == INJECTOR_VOLUME {
        ok := true;
        if !mounts[i].readOnly { return false; }
        if mounts[i].mountPath != INJECTOR_MOUNT_POINT { return false; }
      }
    }
  }

  lemma CheckedNamesDistinct()
    ensures LD_PRELOAD_ENV != TRACER_TOKEN_ENV && LD_PRELOAD_ENV != ENDPOINT_ENV && LD_PRELOAD_ENV != ENABLE_LOGS_ENV
    ensures TRACER_TOKEN_ENV != ENDPOINT_ENV && TRACER_TOKEN_ENV != ENABLE_LOGS_ENV && ENDPOINT_ENV != ENABLE_LOGS_ENV
  {
    assert |TRACER_TOKEN_ENV| == 19 && |ENDPOINT_ENV| == 15 && |ENABLE_LOGS_ENV| == 18 && |LD_PRELOAD_ENV| == 10;
  }
}
