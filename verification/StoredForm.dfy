/** What becomes of an object between a write and the next read. All the lists and maps that
    the mutators edit are left out of the encoding when they are empty, so they are nil when
    read back; and the API server fills in container fields that are not set. */
module StoredForm {
  import opened Sequences
  import opened PodSpecs
  import opened Injection
  import opened InjectionLaws
  import opened Workloads

  /** Two defaults that do not depend on anything else in the container. */
  const CONTAINER_DEFAULTS := map[
    "terminationMessagePath" := "/dev/termination-log", "terminationMessagePolicy" := "File"]

  function SliceAtRest<T>(s: Slice<T>): Slice<T> { if |s.Elems()| == 0 then Nil else s }

  function ContainerAtRest(c: Container): Container {
    c.(env := SliceAtRest(c.env), volumeMounts := SliceAtRest(c.volumeMounts), other := CONTAINER_DEFAULTS + c.other)
  }

  function EachAtRest(cs: seq<Container>): (r: seq<Container>)
    ensures |r| == |cs|
    ensures forall i :: 0 <= i < |cs| ==> r[i] == ContainerAtRest(cs[i])
  {
    seq(|cs|, i requires 0 <= i < |cs| => ContainerAtRest(cs[i]))
  }

  function ContainersAtRest(s: Slice<Container>): Slice<Container> {
    if |s.Elems()| == 0 then Nil else Items(EachAtRest(s.items))
  }

  function SpecAtRest(s: PodSpec): PodSpec {
    s.(volumes := SliceAtRest(s.volumes), initContainers := ContainersAtRest(s.initContainers),
       containers := ContainersAtRest(s.containers))
  }

  function LabelsAtRest(labels: Labels): Labels {
    if labels.Some? && labels.value == map[] then None else labels
  }

  function AtRest(w: Workload): Workload {
    w.(labels := LabelsAtRest(w.labels), templateLabels := LabelsAtRest(w.templateLabels), spec := SpecAtRest(w.spec))
  }

  /** As the API server returns it. */
  predicate IsAtRest(w: Workload) { AtRest(w) == w }

  // ---------------------------------------------------------------- storing once is enough

  lemma ContainerRests(c: Container)
    ensures ContainerAtRest(ContainerAtRest(c)) == ContainerAtRest(c)
  {
    assert CONTAINER_DEFAULTS + (CONTAINER_DEFAULTS + c.other) == CONTAINER_DEFAULTS + c.other;
  }

  lemma EachRests(cs: seq<Container>)
    ensures EachAtRest(EachAtRest(cs)) == EachAtRest(cs)
  {
    forall i | 0 <= i < |cs| ensures EachAtRest(EachAtRest(cs))[i] == EachAtRest(cs)[i] {
      ContainerRests(cs[i]);
    }
  }

  lemma SpecRests(s: PodSpec)
    ensures SpecAtRest(SpecAtRest(s)) == SpecAtRest(s)
  {
    EachRests(s.initContainers.Elems());
    EachRests(s.containers.Elems());
  }

  lemma StoringOnceIsEnough(w: Workload)
    ensures IsAtRest(AtRest(w))
  {
    SpecRests(w.spec);
  }

  // ---------------------------------------------------------------- reading back an injected spec

  /** The API server's defaults make the injector container differ from the one that injection
      writes, so no mutator ever takes a spec that was read back for instrumented. */
  lemma ReadBackIsReinjected(m: Mutator, s: PodSpec)
    ensures InjectPodSpec(m, SpecAtRest(s)) != SpecAtRest(s)
  {
    var t := SpecAtRest(s);
    FixedPointsAreInstrumented(m, t);
    assert t.initContainers.Elems() == EachAtRest(s.initContainers.Elems());
    forall i | 0 <= i < |t.initContainers.Elems()| ensures t.initContainers.Elems()[i].other != map[] {
      assert "terminationMessagePath" in CONTAINER_DEFAULTS;
    }
  }

  lemma SameNames(cs: seq<Container>, k: string)
    ensures FirstIndex(ContainerName, EachAtRest(cs), k) == FirstIndex(ContainerName, cs, k)
  {
    var i, j := FirstIndex(ContainerName, EachAtRest(cs), k), FirstIndex(ContainerName, cs, k);
    assert forall n :: 0 <= n < |cs| ==> ContainerName(EachAtRest(cs)[n]) == ContainerName(cs[n]);
  }

  lemma InjectedContainerAtRest(m: Mutator, c: Container)
    ensures ContainerAtRest(InjectContainer(m, ContainerAtRest(c))) == ContainerAtRest(InjectContainer(m, c))
  {
    assert CONTAINER_DEFAULTS + (CONTAINER_DEFAULTS + c.other) == CONTAINER_DEFAULTS + c.other;
  }

  lemma InjectedContainersAtRest(m: Mutator, cs: seq<Container>)
    ensures EachAtRest(InjectContainers(m, EachAtRest(cs))) == EachAtRest(InjectContainers(m, cs))
  {
    forall i | 0 <= i < |cs|
      ensures EachAtRest(InjectContainers(m, EachAtRest(cs)))[i] == EachAtRest(InjectContainers(m, cs))[i]
    {
      InjectedContainerAtRest(m, cs[i]);
    }
  }

  lemma UpsertedAtRest(cs: seq<Container>, ic: Container)
    ensures EachAtRest(Upsert(ContainerName, EachAtRest(cs), ic)) == EachAtRest(Upsert(ContainerName, cs, ic))
  {
    SameNames(cs, ic.name);
    EachRests(cs);
    var a, b := Upsert(ContainerName, EachAtRest(cs), ic), Upsert(ContainerName, cs, ic);
    forall i | 0 <= i < |b| ensures EachAtRest(a)[i] == EachAtRest(b)[i] {
      if i < |cs| && i != FirstIndex(ContainerName, cs, ic.name) {
        ContainerRests(cs[i]);
      }
    }
  }

  /** Injection does not care whether the spec was stored in between. */
  lemma InjectionAtRest(m: Mutator, s: PodSpec)
    ensures SpecAtRest(InjectPodSpec(m, SpecAtRest(s))) == SpecAtRest(InjectPodSpec(m, s))
  {
    UpsertedAtRest(s.initContainers.Elems(), InjectedInitContainer(m, s.securityContext));
    InjectedContainersAtRest(m, s.containers.Elems());
    assert EachAtRest([]) == [];
  }

  /** Injecting, storing and injecting again, with any two mutators, stores what the second one
      alone would. */
  lemma StoredInjectionAbsorbs(m1: Mutator, m2: Mutator, s: PodSpec)
    ensures SpecAtRest(InjectPodSpec(m2, SpecAtRest(InjectPodSpec(m1, s)))) == SpecAtRest(InjectPodSpec(m2, s))
  {
    InjectionAtRest(m2, InjectPodSpec(m1, s));
    InjectionAbsorbsInjection(m1, m2, s);
  }

  /** The instrumentation of `m` as far as it survives storage: everything but the fields that
      the API server fills in. */
  ghost predicate Carries(m: Mutator, s: PodSpec) {
    var ics, cs := s.initContainers.Elems(), s.containers.Elems();
    var ic, i := InjectedInitContainer(m, s.securityContext), FirstIndex(ContainerName, ics, INJECTOR_CONTAINER);
    && FirstIs(VolumeName, s.volumes.Elems(), InjectedVolume())
    && i < |ics| && ics[i] == ic.(other := ics[i].other)
    && (forall j :: 0 <= j < |cs| ==> ContainerInstrumentedBy(m, cs[j]))
  }

  lemma InjectorAtRest(ic: Container, ics: seq<Container>)
    requires |ic.env.Elems()| > 0 && |ic.volumeMounts.Elems()| > 0
    ensures var i, j := FirstIndex(ContainerName, ics, ic.name), FirstIndex(ContainerName, EachAtRest(ics), ic.name);
            && i == j
            && (i < |ics| ==> (EachAtRest(ics)[i] == ic.(other := EachAtRest(ics)[i].other)
                               <==> ics[i] == ic.(other := ics[i].other)))
  {
    SameNames(ics, ic.name);
  }

  lemma ContainersCarryAtRest(m: Mutator, cs: seq<Container>)
    ensures (forall j :: 0 <= j < |cs| ==> ContainerInstrumentedBy(m, EachAtRest(cs)[j]))
            <==> forall j :: 0 <= j < |cs| ==> ContainerInstrumentedBy(m, cs[j])
  {
    forall j | 0 <= j < |cs|
      ensures ContainerInstrumentedBy(m, EachAtRest(cs)[j]) <==> ContainerInstrumentedBy(m, cs[j])
    {
      ContainerCarriesAtRest(m, cs[j]);
    }
  }

  lemma CarriesAtRest(m: Mutator, s: PodSpec)
    ensures Carries(m, SpecAtRest(s)) <==> Carries(m, s)
  {
    var t, ics, cs := SpecAtRest(s), s.initContainers.Elems(), s.containers.Elems();
    assert t.containers.Elems() == EachAtRest(cs) && t.initContainers.Elems() == EachAtRest(ics);
    assert t.volumes.Elems() == s.volumes.Elems();
    InjectorAtRest(InjectedInitContainer(m, s.securityContext), ics);
    ContainersCarryAtRest(m, cs);
  }

  lemma ContainerCarriesAtRest(m: Mutator, c: Container)
    ensures ContainerInstrumentedBy(m, ContainerAtRest(c)) <==> ContainerInstrumentedBy(m, c)
  {
    assert InjectedEnv(m, c.name)[0] in InjectedEnv(m, c.name);
    assert |c.env.Elems()| == 0 ==> !FirstIs(EnvName, c.env.Elems(), InjectedEnv(m, c.name)[0]);
  }

  /** What injection writes carries the instrumentation, stored or not. */
  lemma InjectedCarries(m: Mutator, s: PodSpec)
    ensures Carries(m, InjectPodSpec(m, s)) && Carries(m, SpecAtRest(InjectPodSpec(m, s)))
  {
    InjectionInstruments(m, s);
    CarriesAtRest(m, InjectPodSpec(m, s));
  }

  // ---------------------------------------------------------------- reading back a removed spec

  /** A container whose environment consists of Lumigo's variables, or of nothing. */
  predicate EnvironmentEmptied(c: Container) { forall e :: e in c.env.Elems() ==> !KeepEnv(e) }

  /** Removal makes an environment nil at rest, or there is no container at all. */
  predicate Depletes(s: PodSpec) {
    || |s.containers.Elems()| == 0
    || exists i :: 0 <= i < |s.containers.Elems()| && EnvironmentEmptied(s.containers.Elems()[i])
  }

  lemma {:induction false} FilterEmpty<T>(keep: T -> bool, s: seq<T>)
    ensures Filter(keep, s) == [] <==> forall x :: x in s ==> !keep(x)
  {
    if s != [] {
      FilterEmpty(keep, s[1..]);
      assert s == [s[0]] + s[1..];
    }
  }

  lemma KeepsAtRest(c: Container)
    ensures KeepInitContainer(ContainerAtRest(c)) == KeepInitContainer(c)
  {}

  /** A filtered list, stored, read back, filtered and stored again. */
  lemma FilteredAtRest<T>(keep: T -> bool, s: seq<T>)
    ensures var r := SliceAtRest(Items(Filter(keep, s)));
            && (r.Items? <==> exists x :: x in s && keep(x))
            && (forall x :: x in r.Elems() ==> keep(x))
            && SliceAtRest(Items(Filter(keep, r.Elems()))) == r
            && SliceAtRest(FilterSlice(keep, r)) == r
  {
    FilterEmpty(keep, s);
    FilterIdentity(keep, Filter(keep, s));
    FilterIdentity(keep, []);
  }

  lemma RemovedContainer(c: Container)
    ensures var r := ContainerAtRest(RemoveFromContainer(c));
            && r.env == SliceAtRest(Items(Filter(KeepEnv, c.env.Elems())))
            && r.volumeMounts == SliceAtRest(Items(Filter(KeepMount, c.volumeMounts.Elems())))
  {}

  lemma RemovedContainerAtRest(c: Container)
    ensures ContainerUntouchedByRemoval(ContainerAtRest(RemoveFromContainer(c))) <==> !EnvironmentEmptied(c)
    ensures var r := ContainerAtRest(RemoveFromContainer(c));
            ContainerAtRest(RemoveFromContainer(r)) == r
  {
    RemovedContainer(c);
    FilteredAtRest(KeepEnv, c.env.Elems());
    FilteredAtRest(KeepMount, c.volumeMounts.Elems());
    assert CONTAINER_DEFAULTS + (CONTAINER_DEFAULTS + c.other) == CONTAINER_DEFAULTS + c.other;
  }

  lemma RemovedInitContainersAtRest(ics: seq<Container>)
    ensures forall c :: c in EachAtRest(Filter(KeepInitContainer, ics)) ==> KeepInitContainer(c)
  {
    var kept := Filter(KeepInitContainer, ics);
    forall i | 0 <= i < |kept| ensures KeepInitContainer(EachAtRest(kept)[i]) {
      assert kept[i] in kept;
      KeepsAtRest(kept[i]);
    }
  }

  lemma RestIsUntouched(s: PodSpec)
    ensures var t := SpecAtRest(RemovePodSpec(s));
            && (forall v :: v in t.volumes.Elems() ==> KeepVolume(v))
            && (forall c :: c in t.initContainers.Elems() ==> KeepInitContainer(c))
            && (t.containers.Items? <==> |s.containers.Elems()| > 0)
            && t.containers.Elems() == EachAtRest(RemoveFromContainers(s.containers.Elems()))
  {
    var t := SpecAtRest(RemovePodSpec(s));
    FilteredAtRest(KeepVolume, s.volumes.Elems());
    RemovedInitContainersAtRest(s.initContainers.Elems());
    assert EachAtRest([]) == [] && RemoveFromContainers([]) == [];
    assert t.volumes == SliceAtRest(Items(Filter(KeepVolume, s.volumes.Elems())));
    assert t.initContainers.Elems() == EachAtRest(Filter(KeepInitContainer, s.initContainers.Elems()));
  }

  /** Removing from a removed spec that was read back reports a change exactly if a container
      had no variables but Lumigo's. */
  lemma RemovalFromReadBack(s: PodSpec)
    ensures var t := SpecAtRest(RemovePodSpec(s));
            RemovePodSpec(t) == t <==> !Depletes(s)
  {
    var t, cs := SpecAtRest(RemovePodSpec(s)), s.containers.Elems();
    RemovalReportsNothing(t);
    RestIsUntouched(s);
    forall i | 0 <= i < |cs|
      ensures ContainerUntouchedByRemoval(t.containers.Elems()[i]) <==> !EnvironmentEmptied(cs[i])
    {
      RemovedContainerAtRest(cs[i]);
    }
  }

  lemma InitContainersSettle(ics: seq<Container>)
    ensures var r := EachAtRest(Filter(KeepInitContainer, ics));
            EachAtRest(Filter(KeepInitContainer, r)) == r
  {
    var kept := Filter(KeepInitContainer, ics);
    RemovedInitContainersAtRest(ics);
    FilterIdentity(KeepInitContainer, EachAtRest(kept));
    EachRests(kept);
  }

  lemma ContainersSettle(cs: seq<Container>)
    ensures var r := EachAtRest(RemoveFromContainers(cs));
            EachAtRest(RemoveFromContainers(r)) == r
  {
    var r := EachAtRest(RemoveFromContainers(cs));
    forall i | 0 <= i < |cs| ensures EachAtRest(RemoveFromContainers(r))[i] == r[i] {
      RemovedContainerAtRest(cs[i]);
    }
  }

  /** But at rest nothing changes any more. */
  lemma RemovalSettles(s: PodSpec)
    ensures var t := SpecAtRest(RemovePodSpec(s));
            SpecAtRest(RemovePodSpec(t)) == t
  {
    var t, vs := SpecAtRest(RemovePodSpec(s)), s.volumes.Elems();
    FilteredAtRest(KeepVolume, vs);
    InitContainersSettle(s.initContainers.Elems());
    ContainersSettle(s.containers.Elems());
    assert EachAtRest([]) == [] && RemoveFromContainers([]) == [];
    assert t.initContainers.Elems() == EachAtRest(Filter(KeepInitContainer, s.initContainers.Elems()));
    assert t.containers.Elems() == EachAtRest(RemoveFromContainers(s.containers.Elems()));
    assert t.volumes == SliceAtRest(Items(Filter(KeepVolume, vs)));
  }

  /** No mutator's instrumentation is left in what removal writes. */
  lemma RemovedCarriesNothing(m: Mutator, s: PodSpec)
    ensures !Carries(m, SpecAtRest(RemovePodSpec(s)))
  {
    var t := RemovePodSpec(s);
    CarriesAtRest(m, t);
    var ics := t.initContainers.Elems();
    assert forall i :: 0 <= i < |ics| ==> ics[i] in ics && KeepInitContainer(ics[i]);
  }
}
