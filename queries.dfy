/**
 * What `conda_env_export` and `conda_list` make of the documents conda
 * prints. Running conda and deserialising its YAML or JSON are outside the
 * model: each query arrives as an already-parsed document, or as the error
 * that running or parsing produced.
 */
module Queries {
  import opened Wrappers
  import opened Conda
  import opened Text
  import Seqs

  /** A YAML node as `serde_yaml::Value` holds it, for untagged documents. */
  datatype YamlValue =
    | Null
    | Bool(b: bool)
    | Number(repr: string)
    | String(s: string)
    | Sequence(items: seq<YamlValue>)
    | Mapping(entries: seq<(YamlValue, YamlValue)>)

  /** `CondaEnvExportYaml`: the export document after deserialisation. */
  datatype ExportDoc = ExportDoc(name: string, channels: seq<string>, dependencies: seq<YamlValue>)

  predicate IsString(v: YamlValue) {
    v.String?
  }

  // ---------------------------------------------------------------------
  // One dependency string

  /**
   * A dependency string `name[=version[=build]]` split on `=`: the first
   * segment is the name, the second (if any) the version, the third (if any)
   * the build; later segments are ignored and no channel is recorded.
   */
  function ParsePackage(s: string): (p: CondaPackage)
    ensures p.channel == None
    ensures '=' !in p.name
    ensures p.version.Some? ==> '=' !in p.version.value
    ensures p.build.Some? ==> p.version.Some? && '=' !in p.build.value
  {
    var parts := SplitOn(s, '=');
    CondaPackage(
      parts[0],
      if |parts| > 1 then Some(parts[1]) else None,
      if |parts| > 2 then Some(parts[2]) else None,
      None)
  }

  /** The name is exactly the text before the first `=`, or all of `s` when there is none. */
  lemma ParsedName(s: string)
    ensures ParsePackage(s).name == s[..IndexOf(s, '=')]
    ensures '=' !in s ==> ParsePackage(s) == CondaPackage(s, None, None, None)
  {
    if '=' !in s {
      IndexOfAbsent(s, '=');
      assert s[..|s|] == s;
    }
  }

  /** The dependency string a package record stands for. */
  function Unparse(p: CondaPackage): string {
    p.name + match p.version {
      case None => ""
      case Some(v) => "=" + v + match p.build {
        case None => ""
        case Some(b) => "=" + b
      }
    }
  }

  function Segments(p: CondaPackage): (parts: seq<string>)
    ensures |parts| >= 1
  {
    [p.name] + match p.version {
      case None => []
      case Some(v) => [v] + match p.build {
        case None => []
        case Some(b) => [b]
      }
    }
  }

  lemma UnparseSegments(p: CondaPackage)
    ensures Unparse(p) == JoinOn(Segments(p), '=')
  {
    var parts := Segments(p);
    if p.version.Some? {
      assert parts[1..][0] == p.version.value;
      if p.build.Some? {
        assert parts[1..][1..] == [p.build.value];
        assert JoinOn(parts[1..], '=') == p.version.value + "=" + p.build.value;
      } else {
        assert parts[1..] == [p.version.value];
      }
    }
  }

  /** A record without `=` in its fields and without channel survives being written and split again. */
  lemma ParseUnparse(p: CondaPackage)
    requires p.channel == None
    requires '=' !in p.name
    requires p.version.Some? ==> '=' !in p.version.value
    requires p.build.Some? ==> p.version.Some? && '=' !in p.build.value
    ensures ParsePackage(Unparse(p)) == p
  {
    UnparseSegments(p);
    var parts := Segments(p);
    assert forall k :: 0 <= k < |parts| ==> '=' !in parts[k];
    SplitJoinOn(parts, '=');
  }

  /**
   * Writing a parsed string back gives its first three `=`-separated segments
   * joined again: a prefix of it, and all of it when it has at most two `=`.
   * Only segments after the third are lost.
   */
  lemma UnparseParse(s: string)
    ensures var parts := SplitOn(s, '=');
      Unparse(ParsePackage(s)) == JoinOn(parts[..if |parts| < 3 then |parts| else 3], '=')
    ensures Unparse(ParsePackage(s)) <= s
    ensures |SplitOn(s, '=')| <= 3 ==> Unparse(ParsePackage(s)) == s
  {
    var parts := SplitOn(s, '=');
    var p := ParsePackage(s);
    var n := if |parts| < 3 then |parts| else 3;
    UnparseSegments(p);
    assert Segments(p) == parts[..n];
    JoinOnPrefix(parts, '=', n);
    JoinSplitOn(s, '=');
    assert n == |parts| ==> parts[..n] == parts;
  }

  // ---------------------------------------------------------------------
  // The dependency list of an export document

  /** `filter_map` over the entries: string entries become packages, all others are dropped. */
  function ParseDeps(deps: seq<YamlValue>): (packages: seq<CondaPackage>)
    ensures |packages| <= |deps|
    ensures forall k :: 0 <= k < |packages| ==> packages[k].channel == None
  {
    if deps == [] then []
    else
      (match deps[0] { case String(s) => [ParsePackage(s)] case _ => [] })
      + ParseDeps(deps[1..])
  }

  /**
   * The packages are exactly the string entries, in their order, each split
   * by `ParsePackage`.
   */
  lemma {:induction false} ParseDepsStrings(deps: seq<YamlValue>)
    ensures var strings := Seqs.Filter(deps, IsString);
      && |ParseDeps(deps)| == |strings|
      && forall k :: 0 <= k < |strings| ==> ParseDeps(deps)[k] == ParsePackage(strings[k].s)
  {
    if deps != [] {
      ParseDepsStrings(deps[1..]);
      var strings := Seqs.Filter(deps, IsString);
      var rest := Seqs.Filter(deps[1..], IsString);
      if IsString(deps[0]) {
        assert strings == [deps[0]] + rest;
        assert forall k :: 1 <= k < |strings| ==> strings[k] == rest[k - 1];
      } else {
        assert strings == rest;
      }
    }
  }

  /** `conda_env_export` after the document is parsed. */
  function CondaEnvExport(query: Result<ExportDoc>): (r: Result<CondaEnv>)
    ensures query.Err? ==> r == Err(query.error)
    ensures query.Ok? ==> (
      && r.Ok?
      && r.value.name == query.value.name
      && r.value.channels == query.value.channels
      && |r.value.condaDeps| <= |query.value.dependencies|
      && (forall k :: 0 <= k < |r.value.condaDeps| ==> r.value.condaDeps[k].channel == None)
      && r.value.pipDeps == [])
  {
    match query
    case Err(e) => Err(e)
    case Ok(doc) => Ok(CondaEnv(doc.name, doc.channels, ParseDeps(doc.dependencies), []))
  }

  // ---------------------------------------------------------------------
  // The package inventory

  /** `conda_list`: every field of every record is carried over, so the inventory is the document. */
  function CondaList(query: Result<seq<CondaPackage>>): (r: Result<seq<CondaPackage>>)
    ensures r == query
  {
    match query
    case Err(e) => Err(e)
    case Ok(raw) =>
      var packages := seq(|raw|, k requires 0 <= k < |raw| =>
        CondaPackage(raw[k].name, raw[k].version, raw[k].build, raw[k].channel));
      assert forall k :: 0 <= k < |raw| ==> packages[k] == raw[k];
      assert packages == raw;
      Ok(packages)
  }
}
