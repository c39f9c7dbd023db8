/** The parts of a Kubernetes pod spec that the Lumigo mutators read or write. Fields they
    only carry along are folded into one `rest` field per entity, and into the map `other` for
    containers, where the API server fills in what is missing. */
module PodSpecs {
  import opened Sequences

  /** A Go slice as seen by `reflect.DeepEqual`: nil and empty differ. */
  datatype Slice<+T> = Nil | Items(items: seq<T>) {
    function Elems(): seq<T> { if Nil? then [] else items }
  }

  datatype EmptyDirSource = EmptyDirSource(medium: string, sizeLimitMega: Option<nat>)

  datatype Volume = Volume(name: string, emptyDir: Option<EmptyDirSource>, otherSource: string)

  datatype VolumeMount = VolumeMount(name: string, readOnly: bool, mountPath: string, rest: string)

  datatype EnvVarSource =
    | SecretKeyRef(secretName: string, key: string, optional: Option<bool>)
    | OtherEnvSource(detail: string)

  datatype EnvVar = EnvVar(name: string, value: string, valueFrom: Option<EnvVarSource>)

  datatype SecurityContext = SecurityContext(
    allowPrivilegeEscalation: Option<bool>,
    privileged: Option<bool>,
    readOnlyRootFilesystem: Option<bool>,
    runAsNonRoot: Option<bool>,
    runAsUser: Option<int>,
    runAsGroup: Option<int>,
    rest: string)

  datatype Container = Container(
    name: string,
    image: string,
    env: Slice<EnvVar>,
    volumeMounts: Slice<VolumeMount>,
    securityContext: Option<SecurityContext>,
    other: map<string, string>)

  datatype PodSecurityContext = PodSecurityContext(
    fsGroup: Option<int>, runAsNonRoot: Option<bool>, rest: string)

  datatype PodSpec = PodSpec(
    volumes: Slice<Volume>,
    initContainers: Slice<Container>,
    containers: Slice<Container>,
    securityContext: PodSecurityContext,
    rest: string)

  function VolumeName(v: Volume): string { v.name }
  function ContainerName(c: Container): string { c.name }
  function EnvName(e: EnvVar): string { e.name }
  function MountPath(m: VolumeMount): string { m.mountPath }

  const TARGET_DIRECTORY_ENV := "TARGET_DIRECTORY"
  const TARGET_DIRECTORY_PATH := "/target"
  const INJECTOR_CONTAINER := "lumigo-injector"
  const INJECTOR_VOLUME := "lumigo-injector"
  const INJECTOR_MOUNT_POINT := "/opt/lumigo"
  const LD_PRELOAD_ENV := "LD_PRELOAD"
  const LD_PRELOAD_VALUE := "/opt/lumigo/injector/lumigo_injector.so"
  const TRACER_TOKEN_ENV := "LUMIGO_TRACER_TOKEN"
  const ENDPOINT_ENV := "LUMIGO_ENDPOINT"
  const LOGS_ENDPOINT_ENV := "LUMIGO_LOGS_ENDPOINT"
  const ENABLE_LOGS_ENV := "LUMIGO_ENABLE_LOGS"
  const ENABLE_TRACES_ENV := "LUMIGO_ENABLE_TRACES"
  const CONTAINER_NAME_ENV := "LUMIGO_CONTAINER_NAME"

  const DEFAULT_INIT_USER := 1234

  /** The configuration of an injecting mutator. */
  datatype Mutator = Mutator(
    labelValue: string,
    endpoint: string,
    logsEndpoint: string,
    enableLogs: bool,
    enableTraces: bool,
    secretName: string,
    secretKey: string,
    injectorImage: string)

  function FormatBool(b: bool): string { if b then "true" else "false" }

  function ParseBool(s: string): Option<bool> {
    if s in ["1", "t", "T", "TRUE", "true", "True"] then Some(true)
    else if s in ["0", "f", "F", "FALSE", "false", "False"] then Some(false)
    else None
  }

  lemma ParseFormatBool(b: bool)
    ensures ParseBool(FormatBool(b)) == Some(b)
  {
    assert forall s :: s in ["1", "t", "T", "TRUE", "true", "True"] ==>
        s == "TRUE" || s == "true" || s == "True" || |s| == 1;
    assert "false"[0] == 'f' && |"false"| == 5;
    assert ["1", "t", "T", "TRUE", "true", "True"][4] == "true";
    assert ["0", "f", "F", "FALSE", "false", "False"][4] == "false";
  }

  /** `strconv.ParseBool` takes a digit, a letter in either case, or a word that is all lower
      case, all upper case or capitalised. */
  lemma ParseBoolExactly(s: string)
    ensures ParseBool(s) == Some(true) <==>
              s == "1" || s == "t" || s == "T" || s == "true" || s == "TRUE" || s == "True"
    ensures ParseBool(s) == Some(false) <==>
              s == "0" || s == "f" || s == "F" || s == "false" || s == "FALSE" || s == "False"
  {
    var yes, no := ["1", "t", "T", "TRUE", "true", "True"], ["0", "f", "F", "FALSE", "false", "False"];
    assert yes[0] in yes && yes[1] in yes && yes[2] in yes && yes[3] in yes && yes[4] in yes && yes[5] in yes;
    assert no[0] in no && no[1] in no && no[2] in no && no[3] in no && no[4] in no && no[5] in no;
    if s in yes && s in no {
      assert |s| == 1 ==> s[0] in "1tT" && s[0] in "0fF";
    }
  }

  /** The seven variables that removal strips, in the order of the source's list. */
  const REMOVED_ENV: seq<string> := [
    TRACER_TOKEN_ENV, ENDPOINT_ENV, LOGS_ENDPOINT_ENV, ENABLE_LOGS_ENV,
    ENABLE_TRACES_ENV, CONTAINER_NAME_ENV, LD_PRELOAD_ENV]

  lemma EnvNamesDistinct()
    ensures forall i, j :: 0 <= i < j < |REMOVED_ENV| ==> REMOVED_ENV[i] != REMOVED_ENV[j]
  {
    assert LOGS_ENDPOINT_ENV[7] != ENABLE_TRACES_ENV[7];
    assert |TRACER_TOKEN_ENV| == 19 && |ENDPOINT_ENV| == 15 && |LOGS_ENDPOINT_ENV| == 20;
    assert |ENABLE_LOGS_ENV| == 18 && |ENABLE_TRACES_ENV| == 20 && |CONTAINER_NAME_ENV| == 21 && |LD_PRELOAD_ENV| == 10;
  }
}
