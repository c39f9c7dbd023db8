/** The file that tells the telemetry proxy which namespaces to monitor. */
module NamespaceConfigs {
  import opened Sequences
  import opened PodSpecs

  datatype Config = Config(token: string, name: string, uid: string)

  function NameOf(c: Config): string { c.name }

  /** File contents up to JSON encoding. `Text` decodes to `list`; equal contents are equal
      values, and marshalling always produces `variant == 0`. A zero-byte file is malformed. */
  datatype File = Missing | Malformed | Text(variant: nat, list: Slice<Config>)

  function Marshal(list: Slice<Config>): File { Text(0, list) }

  // ---------------------------------------------------------------- Go's order on strings

  predicate Before(a: string, b: string) {
    if b == [] then false
    else if a == [] then true
    else a[0] < b[0] || (a[0] == b[0] && Before(a[1..], b[1..]))
  }

  lemma {:induction false} BeforeTransitive(a: string, b: string, c: string)
    requires Before(a, b) && Before(b, c)
    ensures Before(a, c)
  {
    if a != [] && a[0] == b[0] == c[0] {
      BeforeTransitive(a[1..], b[1..], c[1..]);
    }
  }

  lemma {:induction false} BeforeTotal(a: string, b: string)
    ensures !Before(a, a)
    ensures !(Before(a, b) && Before(b, a))
    ensures a == b || Before(a, b) || Before(b, a)
  {
    if a != [] && b != [] {
      BeforeTotal(a[1..], b[1..]);
      if a[0] == b[0] && a[1..] == b[1..] {
        assert a == [a[0]] + a[1..] && b == [b[0]] + b[1..];
      }
    } else if a != [] {
      BeforeTotal(a[1..], a[1..]);
    }
  }

  /** The first `n` characters agree, and then `a` ends or has the smaller character. */
  predicate SmallerAt(a: string, b: string, n: nat) {
    && n <= |a| && n < |b| && a[..n] == b[..n]
    && (n == |a| || a[n] < b[n])
  }

  /** It is the lexicographic order. */
  lemma {:induction false} BeforeIsLexicographic(a: string, b: string)
    ensures Before(a, b) <==> exists n: nat :: SmallerAt(a, b, n)
  {
    if a == [] || b == [] {
      assert b != [] ==> SmallerAt(a, b, 0);
    } else {
      BeforeIsLexicographic(a[1..], b[1..]);
      if Before(a, b) {
        if a[0] < b[0] {
          assert SmallerAt(a, b, 0);
        } else {
          var n: nat :| SmallerAt(a[1..], b[1..], n);
          assert a[..n + 1] == [a[0]] + a[1..][..n] && b[..n + 1] == [b[0]] + b[1..][..n];
          assert SmallerAt(a, b, n + 1);
        }
      }
      if n: nat :| SmallerAt(a, b, n) {
        if n > 0 {
          assert a[0] == a[..n][0] == b[..n][0] == b[0];
          assert a[1..][..n - 1] == a[..n][1..] && b[1..][..n - 1] == b[..n][1..];
          assert SmallerAt(a[1..], b[1..], n - 1);
        }
      }
    }
  }

  ghost predicate SortedByName(l: seq<Config>) {
    forall i, j :: 0 <= i < j < |l| ==> !Before(l[j].name, l[i].name)
  }

  ghost predicate StrictlySorted(l: seq<Config>) {
    forall i, j :: 0 <= i < j < |l| ==> Before(l[i].name, l[j].name)
  }

  // ---------------------------------------------------------------- the update

  /** The entries that survive; an empty name in the request drops everything. */
  predicate Survives(request: Config, c: Config) { c.name != request.name && request.name != "" }

  function Survivor(request: Config): Config -> bool { (c: Config) => Survives(request, c) }

  function Rewritten(request: Config, l: seq<Config>): seq<Config> {
    Filter(Survivor(request), l) + if request.uid != "" then [request] else []
  }

  method Rewrite(request: Config, namespaces: seq<Config>) returns (survivors: seq<Config>)
    ensures survivors == Rewritten(request, namespaces)
  {
    survivors := [];
    for i := 0 to |namespaces|
      invariant survivors == Filter(Survivor(request), namespaces[..i])
    {
      assert namespaces[..i + 1] == namespaces[..i] + [namespaces[i]];
      FilterConcat(Survivor(request), namespaces[..i], [namespaces[i]]);
      if namespaces[i].name != request.name && |request.name| > 0 {
        survivors := survivors + [namespaces[i]];
      }
    }
    assert namespaces[..|namespaces|] == namespaces;
    if |request.uid| > 0 {
      survivors := survivors + [request];
    }
  }

  /** `sort.Slice`: some sorted permutation, here by insertion. */
  method SortByName(l: seq<Config>) returns (r: seq<Config>)
    ensures multiset(r) == multiset(l) && SortedByName(r)
  {
    r := [];
    for i := 0 to |l|
      invariant multiset(r) == multiset(l[..i]) && SortedByName(r)
    {
      TakeOneMore(l, i);
      r := InsertByName(r, l[i]);
    }
    assert l[..|l|] == l;
  }

  method InsertByName(s: seq<Config>, c: Config) returns (r: seq<Config>)
    requires SortedByName(s)
    ensures multiset(r) == multiset(s) + multiset{c} && SortedByName(r)
  {
    var j := 0;
    while j < |s| && !Before(c.name, s[j].name)
      invariant 0 <= j <= |s|
      invariant forall k :: 0 <= k < j ==> !Before(c.name, s[k].name)
    {
      j := j + 1;
    }
    InsertSorted(s, c, j);
    assert s == s[..j] + s[j..];
    r := s[..j] + [c] + s[j..];
  }

  lemma InsertSorted(r: seq<Config>, c: Config, j: nat)
    requires SortedByName(r) && j <= |r|
    requires forall k :: 0 <= k < j ==> !Before(c.name, r[k].name)
    requires j < |r| ==> Before(c.name, r[j].name)
    ensures SortedByName(r[..j] + [c] + r[j..])
  {
    forall k | j <= k < |r| ensures !Before(r[k].name, c.name) {
      BeforeTotal(c.name, r[k].name);
      if Before(r[k].name, c.name) {
        BeforeTransitive(r[k].name, c.name, r[j].name);
      }
    }
  }

  lemma SortingIsUpdate(request: Config, f: File, sorted: seq<Config>)
    requires multiset(sorted) == multiset(Rewritten(request, Decoded(f))) && SortedByName(sorted)
    ensures IsUpdate(request, f, Marshal(if sorted == [] then Nil else Items(sorted)))
  {}

  /** How writing the file goes. It is truncated when it is opened, so a write that fails
      after that leaves a beginning of the text, which never parses; an error that shows only
      when the file is closed leaves all of it. */
  datatype Write = Written | NotOpened | Truncated | NotFlushed

  class NamespaceFile {
    var file: File

    constructor (f: File)
      ensures file == f
    {
      file := f;
    }

    /** `updateTelemetryProxyMonitoringOfNamespace`. It succeeds whenever the file can be read,
        parsed and written; a malformed file is never repaired. */
    method Update(request: Config, readable: bool, write: Write) returns (ok: bool, changed: bool)
      modifies this
      ensures changed <==> ok && file != old(file)
      ensures ok ==> readable && !old(file).Malformed? && IsUpdate(request, old(file), file)
      ensures ok ==> file == old(file) || write.Written?
      ensures readable && !old(file).Malformed? && write.Written? ==> ok
      ensures !readable || old(file).Malformed? ==> file == old(file)
      ensures !ok ==> || file == old(file)
                      || (write.Truncated? && IsAttempt(Attempt(request, Damaged), old(file), file))
                      || (write.NotFlushed? && IsAttempt(Attempt(request, Landed), old(file), file))
    {
      if !readable || file.Malformed? { return false, false; }
      var namespaces := Decoded(file);
      var survivors := Rewrite(request, namespaces);
      var sorted := SortByName(survivors);
      var updated := Marshal(if sorted == [] then Nil else Items(sorted));
      SortingIsUpdate(request, file, sorted);
      if file == updated { return true, false; }
      if write.NotOpened? { return false, false; }
      file := if write.Truncated? then Malformed else updated;
      return write.Written?, write.Written?;
    }
  }

  function Decoded(f: File): seq<Config> {
    if f.Text? then f.list.Elems() else []
  }

  /** Written by an update: null for no entries, otherwise the entries. */
  predicate Canonical(f: File) {
    f == Marshal(if Decoded(f) == [] then Nil else Items(Decoded(f)))
  }

  /** What a successful update may leave in the file: any sorting of the rewritten list; a list
      that nothing was appended to stays nil and is written as null. */
  ghost predicate IsUpdate(request: Config, f: File, f': File) {
    var l' := Decoded(f');
    && Canonical(f')
    && multiset(l') == multiset(Rewritten(request, Decoded(f))) && SortedByName(l')
  }

  // ---------------------------------------------------------------- the map it stands for

  /** The list holds each entry of `m` exactly once, under its own name. */
  ghost predicate Represents(l: seq<Config>, m: map<string, Config>) {
    && DistinctKeys(NameOf, l)
    && (forall c :: c in l <==> c.name in m && m[c.name] == c)
    && (forall k :: k in m ==> m[k].name == k)
  }

  /** The one file content that a map has. */
  ghost predicate StandsFor(f: File, m: map<string, Config>) {
    Canonical(f) && Represents(Decoded(f), m) && StrictlySorted(Decoded(f))
  }

  /** What an upsert or remove does to the map; an upsert without a uid is a remove. */
  function Meant(request: Config, m: map<string, Config>): map<string, Config> {
    if request.uid != "" then m[request.name := request] else m - {request.name}
  }

  function MeantAll(requests: seq<Config>, m: map<string, Config>): map<string, Config> {
    if requests == [] then m else MeantAll(requests[1..], Meant(requests[0], m))
  }

  lemma {:induction false} FilterKeeps(keep: Config -> bool, l: seq<Config>)
    ensures forall c :: c in Filter(keep, l) <==> c in l && keep(c)
    ensures DistinctKeys(NameOf, l) ==> DistinctKeys(NameOf, Filter(keep, l))
  {
    if l != [] {
      FilterKeeps(keep, l[1..]);
      assert l == [l[0]] + l[1..];
      if DistinctKeys(NameOf, l) {
        assert forall c :: c in l[1..] ==> c.name != l[0].name;
        assert DistinctKeys(NameOf, l[1..]);
      }
    }
  }

  lemma SameMembers(l: seq<Config>, l': seq<Config>)
    requires multiset(l) == multiset(l')
    ensures forall c :: c in l <==> c in l'
  {
    forall c ensures c in l <==> c in l' {
      assert c in l <==> c in multiset(l);
      assert c in l' <==> c in multiset(l');
    }
  }

  lemma DropOne(l: seq<Config>, p: nat)
    requires p < |l|
    ensures multiset(l) == multiset(l[..p] + l[p + 1..]) + multiset{l[p]}
  {
    assert l == l[..p] + ([l[p]] + l[p + 1..]);
  }

  function Without(l: seq<Config>, p: nat): seq<Config>
    requires p < |l|
  {
    l[..p] + l[p + 1..]
  }

  lemma CancelOne(l: seq<Config>, l': seq<Config>, p: nat, i: nat)
    requires multiset(l) == multiset(l') && p < |l| && i < |l'| && l[p] == l'[i]
    ensures multiset(Without(l, p)) == multiset(Without(l', i))
  {
    DropOne(l, p);
    DropOne(l', i);
    Subtract(multiset(Without(l, p)), multiset(Without(l', i)), l[p]);
  }

  lemma Subtract(a: multiset<Config>, b: multiset<Config>, c: Config)
    requires a + multiset{c} == b + multiset{c}
    ensures a == b
  {
    assert a == (a + multiset{c}) - multiset{c} && b == (b + multiset{c}) - multiset{c};
  }

  /** Two positions of a permutation come from two positions of the original. */
  lemma TwoPositions(l: seq<Config>, l': seq<Config>, i: nat, j: nat) returns (p: nat, q: nat)
    requires multiset(l) == multiset(l') && i < j < |l'|
    ensures p < |l| && q < |l| && p != q && l[p] == l'[i] && l[q] == l'[j]
  {
    p := PositionOf(l, l', i);
    CancelOne(l, l', p, i);
    assert Without(l', i)[j - 1] == l'[j];
    q := PositionOf(Without(l, p), Without(l', i), j - 1);
    q := if q < p then q else q + 1;
  }

  lemma PositionOf(l: seq<Config>, l': seq<Config>, i: nat) returns (p: nat)
    requires multiset(l) == multiset(l') && i < |l'|
    ensures p < |l| && l[p] == l'[i]
  {
    SameMembers(l, l');
    assert l'[i] in l';
    p :| 0 <= p < |l| && l[p] == l'[i];
  }

  lemma DistinctPermutation(l: seq<Config>, l': seq<Config>)
    requires DistinctKeys(NameOf, l) && multiset(l) == multiset(l')
    ensures DistinctKeys(NameOf, l')
    ensures forall c :: c in l <==> c in l'
  {
    SameMembers(l, l');
    forall i, j | 0 <= i < j < |l'| ensures NameOf(l'[i]) != NameOf(l'[j]) {
      var p, q := TwoPositions(l, l', i, j);
    }
  }

  lemma StrictIfDistinct(l: seq<Config>)
    requires SortedByName(l) && DistinctKeys(NameOf, l)
    ensures StrictlySorted(l)
  {
    forall i, j | 0 <= i < j < |l| ensures Before(l[i].name, l[j].name) {
      BeforeTotal(l[i].name, l[j].name);
      assert NameOf(l[i]) != NameOf(l[j]);
    }
  }

  lemma RewrittenRepresents(request: Config, l: seq<Config>, m: map<string, Config>)
    requires request.name != "" && Represents(l, m)
    ensures Represents(Rewritten(request, l), Meant(request, m))
  {
    var kept := Filter(Survivor(request), l);
    assert DistinctKeys(NameOf, kept) && forall c :: c in kept <==> c in l && c.name != request.name by {
      FilterKeeps(Survivor(request), l);
    }
    assert Represents(kept, m - {request.name});
    if request.uid != "" {
      var r, m' := kept + [request], m[request.name := request];
      assert forall c :: c in r <==> c in kept || c == request;
      assert DistinctKeys(NameOf, r) by {
        assert forall i :: 0 <= i < |kept| ==> kept[i] in kept;
      }
      assert forall c :: c in r <==> c.name in m' && m'[c.name] == c;
    }
  }

  /** One successful update of a file does to its list what the request means for the map, and
      leaves the list strictly sorted. */
  lemma UpdateRefinesMap(request: Config, f: File, f': File, m: map<string, Config>)
    requires request.name != "" && Represents(Decoded(f), m) && IsUpdate(request, f, f')
    ensures StandsFor(f', Meant(request, m))
  {
    RewrittenRepresents(request, Decoded(f), m);
    DistinctPermutation(Rewritten(request, Decoded(f)), Decoded(f'));
    StrictIfDistinct(Decoded(f'));
  }

  /** A strictly sorted list is determined by its elements. */
  lemma {:induction false} SortedListsAgree(a: seq<Config>, b: seq<Config>)
    requires StrictlySorted(a) && StrictlySorted(b)
    requires forall c :: c in a <==> c in b
    ensures a == b
  {
    if a == [] {
      if b != [] {
        SomeMember(b);
        assert false;
      }
    } else {
      assert a[0] in b;
      var k :| 0 <= k < |b| && b[k] == a[0];
      assert b[0] in a;
      var j :| 0 <= j < |a| && a[j] == b[0];
      BeforeTotal(a[0].name, b[0].name);
      assert a[0] == b[0];
      forall c ensures c in a[1..] <==> c in b[1..] {
        TailMembers(a, c);
        TailMembers(b, c);
      }
      SortedListsAgree(a[1..], b[1..]);
      assert a == [a[0]] + a[1..] && b == [b[0]] + b[1..];
    }
  }

  lemma SomeMember(b: seq<Config>)
    requires b != []
    ensures exists c :: c in b
  {
    assert b[0] in b;
  }

  lemma TailMembers(a: seq<Config>, c: Config)
    requires a != [] && StrictlySorted(a)
    ensures c in a[1..] <==> c in a && c != a[0]
  {
    BeforeTotal(a[0].name, a[0].name);
    assert a == [a[0]] + a[1..];
  }

  /** Two updated files that stand for the same map have the same content. */
  lemma ContentIsDetermined(f: File, g: File, m: map<string, Config>)
    requires StandsFor(f, m) && StandsFor(g, m)
    ensures f == g
  {
    SortedListsAgree(Decoded(f), Decoded(g));
  }

  /** `files` are the contents over a sequence of successful updates. */
  ghost predicate IsFileRun(requests: seq<Config>, files: seq<File>) {
    && |files| == |requests| + 1
    && forall i :: 0 <= i < |requests| ==> requests[i].name != "" && IsUpdate(requests[i], files[i], files[i + 1])
  }

  /** Over any sequence of successful updates of named namespaces, the file stands for the map
      that the requests define and stays strictly sorted. */
  lemma {:induction false} FileRefinesMap(requests: seq<Config>, files: seq<File>, m: map<string, Config>)
    requires IsFileRun(requests, files) && Represents(Decoded(files[0]), m)
    ensures Represents(Decoded(files[|requests|]), MeantAll(requests, m))
    ensures requests != [] ==> StandsFor(files[|requests|], MeantAll(requests, m))
    decreases |requests|
  {
    if requests != [] {
      UpdateRefinesMap(requests[0], files[0], files[1], m);
      var rest, later := requests[1..], files[1..];
      forall i | 0 <= i < |rest| ensures rest[i].name != "" && IsUpdate(rest[i], later[i], later[i + 1]) {
        assert rest[i] == requests[i + 1] && later[i] == files[i + 1] && later[i + 1] == files[(i + 1) + 1];
      }
      FileRefinesMap(rest, later, Meant(requests[0], m));
    }
  }

  /** What one update, successful or not, does to the file. */
  datatype Effect = Landed | NoEffect | Damaged

  datatype Attempt = Attempt(request: Config, effect: Effect)

  ghost predicate IsAttempt(a: Attempt, f: File, f': File) {
    match a.effect
    case Landed => !f.Malformed? && IsUpdate(a.request, f, f')
    case NoEffect => f' == f
    case Damaged => !f.Malformed? && f' == Malformed
  }

  function LandedRequests(attempts: seq<Attempt>): seq<Config> {
    if attempts == [] then []
    else (if attempts[0].effect.Landed? then [attempts[0].request] else []) + LandedRequests(attempts[1..])
  }

  /** Failures included: the file stands for the map that the requests which landed define,
      until a truncated write makes it malformed for good. */
  lemma {:induction false} FileSurvivesFailures(attempts: seq<Attempt>, files: seq<File>, m: map<string, Config>)
    requires |files| == |attempts| + 1 && (files[0].Malformed? || Represents(Decoded(files[0]), m))
    requires forall i :: 0 <= i < |attempts| ==> attempts[i].request.name != ""
    requires forall i :: 0 <= i < |attempts| ==> IsAttempt(attempts[i], files[i], files[i + 1])
    ensures var last := files[|attempts|];
            && (last.Malformed? <==>
                files[0].Malformed? || exists i :: 0 <= i < |attempts| && attempts[i].effect.Damaged?)
            && (!last.Malformed? ==> Represents(Decoded(last), MeantAll(LandedRequests(attempts), m)))
    decreases |attempts|
  {
    if attempts != [] {
      var rest, later := attempts[1..], files[1..];
      assert IsAttempt(attempts[0], files[0], files[0 + 1]);
      var m1 := if attempts[0].effect.Landed? then Meant(attempts[0].request, m) else m;
      if attempts[0].effect.Landed? {
        UpdateRefinesMap(attempts[0].request, files[0], files[1], m);
      }
      forall i | 0 <= i < |rest| ensures IsAttempt(rest[i], later[i], later[i + 1]) {
        assert rest[i] == attempts[i + 1] && later[i] == files[i + 1] && later[i + 1] == files[(i + 1) + 1];
      }
      FileSurvivesFailures(rest, later, m1);
      LandedFirst(attempts, m);
      assert forall i :: 0 <= i < |rest| ==> rest[i] == attempts[i + 1];
    }
  }

  lemma LandedFirst(attempts: seq<Attempt>, m: map<string, Config>)
    requires attempts != []
    ensures MeantAll(LandedRequests(attempts), m) ==
            MeantAll(LandedRequests(attempts[1..]),
                     if attempts[0].effect.Landed? then Meant(attempts[0].request, m) else m)
  {
    var rest := LandedRequests(attempts[1..]);
    if attempts[0].effect.Landed? {
      assert ([attempts[0].request] + rest)[1..] == rest;
    } else {
      assert [] + rest == rest;
    }
  }

  /** Updates of different namespaces commute down to the bytes of the file. */
  lemma UpdatesCommute(a: Config, b: Config, f: File, fa: File, fab: File, fb: File, fba: File, m: map<string, Config>)
    requires a.name != "" && b.name != "" && a.name != b.name && Represents(Decoded(f), m)
    requires IsUpdate(a, f, fa) && IsUpdate(b, fa, fab) && IsUpdate(b, f, fb) && IsUpdate(a, fb, fba)
    ensures fab == fba
  {
    var ab := Meant(b, Meant(a, m));
    assert StandsFor(fab, ab) by {
      UpdateRefinesMap(a, f, fa, m);
      UpdateRefinesMap(b, fa, fab, Meant(a, m));
    }
    assert StandsFor(fba, Meant(a, Meant(b, m))) by {
      UpdateRefinesMap(b, f, fb, m);
      UpdateRefinesMap(a, fb, fba, Meant(b, m));
    }
    MeaningsCommute(a, b, m);
    ContentIsDetermined(fab, fba, ab);
  }

  lemma MeaningsCommute(a: Config, b: Config, m: map<string, Config>)
    ensures a.name != b.name ==> Meant(b, Meant(a, m)) == Meant(a, Meant(b, m))
    ensures Meant(a, Meant(a, m)) == Meant(a, m)
  {}

  /** Repeating an update changes nothing, so the second call reports no change. */
  lemma RepeatedUpdateIsUnchanged(a: Config, f: File, f': File, f'': File, m: map<string, Config>)
    requires a.name != "" && Represents(Decoded(f), m) && IsUpdate(a, f, f') && IsUpdate(a, f', f'')
    ensures f'' == f'
  {
    UpdateRefinesMap(a, f, f', m);
    assert StandsFor(f'', Meant(a, Meant(a, m))) by {
      UpdateRefinesMap(a, f', f'', Meant(a, m));
    }
    MeaningsCommute(a, a, m);
    ContentIsDetermined(f', f'', Meant(a, m));
  }

  /** A request without a namespace name wipes the file, whatever was in it. */
  lemma NamelessRequestErases(a: Config, f: File, f': File)
    requires a.name == "" && IsUpdate(a, f, f')
    ensures Decoded(f') == if a.uid != "" then [a] else []
  {
    var kept := Filter(Survivor(a), Decoded(f));
    FilterNone(Survivor(a), Decoded(f));
    assert |multiset(Decoded(f'))| == |multiset(Rewritten(a, Decoded(f)))|;
    if a.uid != "" {
      assert Rewritten(a, Decoded(f)) == [a];
      assert Decoded(f')[0] in multiset(Decoded(f'));
    }
  }
}
