/** API versions as Kubernetes writes them: a group, a slash and a version, or just a version. */
module GroupVersions {
  import opened Sequences

  function Itself(c: char): char { c }

  /** `schema.ParseGroupVersion`: at most one slash. */
  function ParseGroupVersion(s: string): Option<(string, string)> {
    var i := FirstIndex(Itself, s, '/');
    if s == "" || s == "/" then Some(("", ""))
    else if i == |s| then Some(("", s))
    else if '/' in s[i + 1..] then None
    else Some((s[..i], s[i + 1..]))
  }

  predicate HasTwoSlashes(s: string) { exists i, j :: 0 <= i < j < |s| && s[i] == '/' && s[j] == '/' }

  lemma ParsesUnlessTwoSlashes(s: string)
    ensures ParseGroupVersion(s).None? <==> HasTwoSlashes(s)
  {
    var i := FirstIndex(Itself, s, '/');
    if i < |s| {
      assert s[i] == '/';
      if '/' in s[i + 1..] {
        var j :| 0 <= j < |s[i + 1..]| && s[i + 1..][j] == '/';
        assert s[i + 1 + j] == '/';
      } else {
        assert forall j :: i < j < |s| ==> s[j] == s[i + 1..][j - i - 1];
      }
    }
  }

  /** A group and a version come from exactly one spelling. */
  lemma ParsesToGroup(s: string, group: string, version: string)
    requires group != "" && '/' !in group && '/' !in version
    ensures ParseGroupVersion(s) == Some((group, version)) <==> s == group + "/" + version
  {
    var i := FirstIndex(Itself, s, '/');
    if i < |s| {
      assert s == s[..i] + "/" + s[i + 1..];
    }
    if s == group + "/" + version {
      assert s[|group|] == '/' && forall j :: 0 <= j < |group| ==> s[j] == group[j];
      assert i == |group| && s[..i] == group && s[i + 1..] == version;
    }
  }

  /** The core group has two: with and without a slash in front of the version. */
  lemma ParsesToCore(s: string, version: string)
    requires version != "" && '/' !in version
    ensures ParseGroupVersion(s) == Some(("", version)) <==> s == version || s == "/" + version
  {
    var i := FirstIndex(Itself, s, '/');
    if i < |s| {
      assert s == s[..i] + "/" + s[i + 1..];
    }
    if s == version {
      assert forall j :: 0 <= j < |s| ==> s[j] in version;
    }
    if s == "/" + version {
      assert s[0] == '/' && i == 0 && s[1..] == version;
    }
  }

  lemma ApiVersions(s: string)
    ensures ParseGroupVersion(s) == Some(("apps", "v1")) <==> s == "apps/v1"
    ensures ParseGroupVersion(s) == Some(("batch", "v1")) <==> s == "batch/v1"
    ensures ParseGroupVersion(s) == Some(("", "v1")) <==> s == "v1" || s == "/v1"
  {
    ParsesToGroup(s, "apps", "v1");
    ParsesToGroup(s, "batch", "v1");
    ParsesToCore(s, "v1");
    assert "apps" + "/" + "v1" == "apps/v1" && "batch" + "/" + "v1" == "batch/v1" && "/" + "v1" == "/v1";
  }
}
