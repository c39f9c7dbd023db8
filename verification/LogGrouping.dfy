/** `unstructuredListToLogData`: objects to log records, one resource group per namespace. */
module LogGrouping {
  import opened Sequences

  /** An object, or the envelope of a watch event around one. */
  datatype Body = Plain(content: string) | Envelope(eventType: string, content: string)

  /** `namespace` is what `GetNamespace` returns. */
  datatype Item = Item(namespace: string, body: Body)

  type Attributes = map<string, string>

  /** What every record of one call shares; the updaters are applied to each record in turn. */
  datatype Stamp = Stamp(observedAt: int, resourceName: string, updaters: seq<Attributes -> Attributes>)

  datatype Record = Record(observedAt: int, attributes: Attributes, body: Body)

  const NAMESPACE_ATTRIBUTE := "k8s.namespace.name"
  const RESOURCE_NAME := "k8s.resource.name"
  const EVENT_DOMAIN := "event.domain"
  const EVENT_NAME := "event.name"

  function Updated(updaters: seq<Attributes -> Attributes>, attributes: Attributes): Attributes {
    if updaters == [] then attributes
    else updaters[|updaters| - 1](Updated(updaters[..|updaters| - 1], attributes))
  }

  function RecordFor(stamp: Stamp, x: Item): Record {
    Record(stamp.observedAt, Updated(stamp.updaters, map[RESOURCE_NAME := stamp.resourceName]), x.body)
  }

  /** A record list that the namespace map and the output share. */
  class LogRecordSlice {
    var records: seq<Record>

    constructor ()
      ensures records == []
    {
      records := [];
    }
  }

  datatype ResourceLogs = ResourceLogs(attributes: map<string, string>, logs: LogRecordSlice)

  // ---------------------------------------------------------------- what the output should be

  /** The namespaces in the order of their first occurrence. */
  function FirstSeen(items: seq<Item>): (r: seq<string>)
    ensures forall i :: 0 <= i < |items| ==> items[i].namespace in r
    ensures forall i, j :: 0 <= i < j < |r| ==> r[i] != r[j]
  {
    if items == [] then []
    else
      var before, x := FirstSeen(items[..|items| - 1]), items[|items| - 1];
      assert forall i :: 0 <= i < |items| - 1 ==> items[i] == items[..|items| - 1][i];
      if x.namespace in before then before else before + [x.namespace]
  }

  function InNamespace(ns: string): Item -> bool { (i: Item) => i.namespace == ns }

  function RecordsOf(stamp: Stamp, items: seq<Item>): (r: seq<Record>)
    ensures |r| == |items|
    ensures forall i :: 0 <= i < |items| ==> r[i] == RecordFor(stamp, items[i])
  {
    if items == [] then [] else [RecordFor(stamp, items[0])] + RecordsOf(stamp, items[1..])
  }

  /** The records of one namespace: its objects, in input order. */
  function GroupOf(stamp: Stamp, items: seq<Item>, ns: string): seq<Record> {
    RecordsOf(stamp, Filter(InNamespace(ns), items))
  }

  function AttributesOf(ns: string): map<string, string> {
    if ns == "" then map[] else map[NAMESPACE_ATTRIBUTE := ns]
  }

  /** Group `g` of the output is the one of the `g`-th namespace. */
  ghost predicate IsGrouping(stamp: Stamp, items: seq<Item>, out: seq<ResourceLogs>)
    reads set g | g in out :: g.logs
  {
    var names := FirstSeen(items);
    && |out| == |names|
    && (forall g :: 0 <= g < |out| ==>
        out[g].attributes == AttributesOf(names[g]) && out[g].logs.records == GroupOf(stamp, items, names[g]))
    && (forall g, h :: 0 <= g < h < |out| ==> out[g].logs != out[h].logs)
  }

  lemma GroupGrows(stamp: Stamp, items: seq<Item>, x: Item, ns: string)
    ensures GroupOf(stamp, items + [x], ns) ==
            GroupOf(stamp, items, ns) + if x.namespace == ns then [RecordFor(stamp, x)] else []
  {
    FilterConcat(InNamespace(ns), items, [x]);
    assert Filter(InNamespace(ns), [x]) == if x.namespace == ns then [x] else [];
  }

  lemma NewGroupIsEmpty(stamp: Stamp, items: seq<Item>, ns: string)
    requires ns !in FirstSeen(items)
    ensures GroupOf(stamp, items, ns) == []
  {
    FilterNone(InNamespace(ns), items);
  }

  lemma NamesGrow(items: seq<Item>, x: Item)
    ensures FirstSeen(items + [x]) == FirstSeen(items) + if x.namespace in FirstSeen(items) then [] else [x.namespace]
  {
    assert (items + [x])[..|items|] == items;
  }

  /** The groups so far, with `names` and `slices` as the loop knows them. */
  ghost predicate GroupsAre(stamp: Stamp, items: seq<Item>, names: seq<string>, slices: map<string, LogRecordSlice>,
      out: seq<ResourceLogs>)
    reads set g | g in out :: g.logs
  {
    && |out| == |names| && slices.Keys == (set n | n in names)
    && (forall g :: 0 <= g < |out| ==> slices[names[g]] == out[g].logs && out[g].attributes == AttributesOf(names[g]))
    && (forall g :: 0 <= g < |out| ==> out[g].logs.records == GroupOf(stamp, items, names[g]))
    && (forall g, h :: 0 <= g < h < |out| ==> out[g].logs != out[h].logs)
  }

  /** The attributes of one record: the resource name, then the updaters in order. */
  method RecordAttributes(stamp: Stamp) returns (attributes: Attributes)
    ensures attributes == Updated(stamp.updaters, map[RESOURCE_NAME := stamp.resourceName])
  {
    attributes := map[RESOURCE_NAME := stamp.resourceName];
    for i := 0 to |stamp.updaters|
      invariant attributes == Updated(stamp.updaters[..i], map[RESOURCE_NAME := stamp.resourceName])
    {
      assert stamp.updaters[..i + 1][..i] == stamp.updaters[..i];
      attributes := stamp.updaters[i](attributes);
    }
    assert stamp.updaters[..|stamp.updaters|] == stamp.updaters;
  }

  /** `logSlice.AppendEmpty()` and the lines that fill the record. */
  method AppendRecord(stamp: Stamp, ghost items: seq<Item>, e: Item, ghost names: seq<string>,
      slices: map<string, LogRecordSlice>, ghost out: seq<ResourceLogs>)
    requires GroupsAre(stamp, items, names, slices, out) && e.namespace in slices
    modifies slices[e.namespace]
    ensures GroupsAre(stamp, items + [e], names, slices, out)
  {
    var logs := slices[e.namespace];
    ghost var g :| 0 <= g < |names| && names[g] == e.namespace;
    assert logs == out[g].logs;
    ghost var groups := seq(|out|, h requires 0 <= h < |out| reads set r | r in out :: r.logs => out[h].logs.records);
    var attributes := RecordAttributes(stamp);
    logs.records := logs.records + [Record(stamp.observedAt, attributes, e.body)];
    forall h | 0 <= h < |out| ensures out[h].logs.records == GroupOf(stamp, items + [e], names[h]) {
      GroupGrows(stamp, items, e, names[h]);
      assert names[h] == e.namespace <==> h == g by {
        assert slices[names[h]] == out[h].logs;
      }
      assert groups[h] == GroupOf(stamp, items, names[h]);
    }
  }

  /** A new resource group with its namespace attribute and an empty record list. */
  method AppendGroup(stamp: Stamp, ghost items: seq<Item>, ns: string, ghost names: seq<string>,
      slices: map<string, LogRecordSlice>, out: seq<ResourceLogs>)
    returns (slice: LogRecordSlice, group: ResourceLogs)
    requires GroupsAre(stamp, items, names, slices, out) && ns !in slices && GroupOf(stamp, items, ns) == []
    ensures fresh(slice) && group == ResourceLogs(AttributesOf(ns), slice)
    ensures GroupsAre(stamp, items, names + [ns], slices[ns := slice], out + [group])
  {
    slice := new LogRecordSlice();
    group := ResourceLogs(AttributesOf(ns), slice);
    assert forall g :: 0 <= g < |out| ==> names[g] in slices && names[g] != ns;
  }

  /** One round of the loop. */
  method Place(stamp: Stamp, ghost done: seq<Item>, e: Item, ghost names: seq<string>,
      slices: map<string, LogRecordSlice>, out: seq<ResourceLogs>)
    returns (ghost names': seq<string>, slices': map<string, LogRecordSlice>, out': seq<ResourceLogs>)
    requires names == FirstSeen(done) && GroupsAre(stamp, done, names, slices, out)
    modifies slices.Values
    ensures names' == FirstSeen(done + [e]) && GroupsAre(stamp, done + [e], names', slices', out')
    ensures forall s :: s in slices'.Values ==> s in slices.Values || fresh(s)
  {
    names', slices', out' := names, slices, out;
    NamesGrow(done, e);
    if e.namespace !in slices {
      NewGroupIsEmpty(stamp, done, e.namespace);
      var slice, group := AppendGroup(stamp, done, e.namespace, names, slices, out);
      names', slices', out' := names + [e.namespace], slices[e.namespace := slice], out + [group];
    }
    AppendRecord(stamp, done, e, names', slices', out');
  }

  method UnstructuredListToLogData(items: seq<Item>, stamp: Stamp) returns (out: seq<ResourceLogs>)
    ensures forall g :: 0 <= g < |out| ==> fresh(out[g].logs)
    ensures IsGrouping(stamp, items, out)
  {
    out := [];
    var slices: map<string, LogRecordSlice> := map[];
    ghost var names := [];
    for i := 0 to |items|
      invariant forall s :: s in slices.Values ==> fresh(s)
      invariant names == FirstSeen(items[..i]) && GroupsAre(stamp, items[..i], names, slices, out)
    {
      TakeOneMore(items, i);
      names, slices, out := Place(stamp, items[..i], items[i], names, slices, out);
    }
    assert items[..|items|] == items;
    forall g | 0 <= g < |out| ensures fresh(out[g].logs) {
      assert slices[names[g]] in slices.Values;
    }
  }

  /** Every group is labelled with its namespace, except that of objects without one. */
  lemma GroupsAreLabelled(stamp: Stamp, items: seq<Item>, out: seq<ResourceLogs>, g: nat)
    requires IsGrouping(stamp, items, out) && g < |out|
    ensures var ns := FirstSeen(items)[g];
            out[g].attributes == if ns == "" then map[] else map["k8s.namespace.name" := ns]
  {}

  /** What the updater of a watch event adds. */
  function NameEvent(name: string): Attributes -> Attributes {
    (attributes: Attributes) =>
      if name == "" then attributes else attributes[EVENT_DOMAIN := "k8s"][EVENT_NAME := name]
  }

  /** `watchObjectsToLogData`: the object goes out in an envelope that has no metadata of its own,
      so the one record is in a group without a namespace, whatever namespace the object has. */
  method WatchObjectsToLogData(eventType: string, name: string, content: string, observedAt: int, resourceName: string)
    returns (out: seq<ResourceLogs>)
    ensures |out| == 1 && NAMESPACE_ATTRIBUTE !in out[0].attributes
    ensures var base := map[RESOURCE_NAME := resourceName];
            out[0].logs.records == [Record(
              observedAt, if name == "" then base else base[EVENT_DOMAIN := "k8s"][EVENT_NAME := name],
              Envelope(eventType, content))]
  {
    var stamp := Stamp(observedAt, resourceName, [NameEvent(name)]);
    var item := Item("", Envelope(eventType, content));
    out := UnstructuredListToLogData([item], stamp);
    SingleGroup(stamp, item);
    assert stamp.updaters[..0] == []
        && Updated([], map[RESOURCE_NAME := resourceName]) == map[RESOURCE_NAME := resourceName];
  }

  lemma SingleGroup(stamp: Stamp, x: Item)
    ensures FirstSeen([x]) == [x.namespace] && GroupOf(stamp, [x], x.namespace) == [RecordFor(stamp, x)]
  {
    NamesGrow([], x);
    GroupGrows(stamp, [], x, x.namespace);
    assert [] + [x] == [x];
  }

  // ---------------------------------------------------------------- nothing lost, nothing twice

  /** All groups one after the other, as objects. */
  function Regrouped(names: seq<string>, items: seq<Item>): seq<Item> {
    if names == [] then [] else Filter(InNamespace(names[0]), items) + Regrouped(names[1..], items)
  }

  lemma FilterGrows(items: seq<Item>, x: Item, ns: string)
    ensures x.namespace == ns ==> Filter(InNamespace(ns), items + [x]) == Filter(InNamespace(ns), items) + [x]
    ensures x.namespace != ns ==> Filter(InNamespace(ns), items + [x]) == Filter(InNamespace(ns), items)
  {
    FilterConcat(InNamespace(ns), items, [x]);
    FilterIdentity(InNamespace(ns), [x]);
  }

  lemma {:induction false} RegroupedUntouched(names: seq<string>, items: seq<Item>, x: Item)
    requires x.namespace !in names
    ensures Regrouped(names, items + [x]) == Regrouped(names, items)
  {
    if names != [] {
      FilterGrows(items, x, names[0]);
      RegroupedUntouched(names[1..], items, x);
    }
  }

  lemma {:induction false} RegroupedGrows(names: seq<string>, items: seq<Item>, x: Item)
    requires x.namespace in names && forall i, j :: 0 <= i < j < |names| ==> names[i] != names[j]
    ensures multiset(Regrouped(names, items + [x])) == multiset(Regrouped(names, items)) + multiset{x}
  {
    var n, rest := names[0], names[1..];
    FilterGrows(items, x, n);
    if x.namespace == n {
      RegroupedUntouched(rest, items, x);
    } else {
      RegroupedGrows(rest, items, x);
    }
  }

  lemma Reassociate(a: seq<Item>, b: seq<Item>, c: seq<Item>)
    ensures a + (b + c) == (a + b) + c
  {}

  lemma {:induction false} RegroupedNames(names: seq<string>, ns: string, items: seq<Item>)
    ensures Regrouped(names + [ns], items) == Regrouped(names, items) + Filter(InNamespace(ns), items)
  {
    if names == [] {
      assert (names + [ns])[1..] == [] && Regrouped([], items) == [];
      assert Regrouped(names + [ns], items) == Filter(InNamespace(ns), items) + [];
    } else {
      assert (names + [ns])[1..] == names[1..] + [ns] && (names + [ns])[0] == names[0];
      RegroupedNames(names[1..], ns, items);
      Reassociate(Filter(InNamespace(names[0]), items), Regrouped(names[1..], items), Filter(InNamespace(ns), items));
    }
  }

  /** The groups together hold every object of the input exactly as often as the input does. */
  lemma {:induction false} GroupingConserves(items: seq<Item>)
    ensures multiset(Regrouped(FirstSeen(items), items)) == multiset(items)
  {
    if items != [] {
      var before, x := items[..|items| - 1], items[|items| - 1];
      assert items == before + [x];
      GroupingConserves(before);
      NamesGrow(before, x);
      if x.namespace in FirstSeen(before) {
        RegroupedGrows(FirstSeen(before), before, x);
      } else {
        RegroupedNames(FirstSeen(before), x.namespace, items);
        RegroupedUntouched(FirstSeen(before), before, x);
        FilterGrows(before, x, x.namespace);
        FilterNone(InNamespace(x.namespace), before);
        assert Regrouped(FirstSeen(items), items) == Regrouped(FirstSeen(before), before) + [x];
      }
    }
  }
}
