/**
 init: the requirements it writes from a snapshot and an example file, and what
 the later check and fix make of them on the same machine.
 */
module InitCfg {
  import opened Prelude
  import opened Text
  import opened Decimal
  import opened Model
  import opened Reports
  import opened Checks
  import opened EnvText
  import opened EnvKeys
  import opened FixApply
  import opened FixLoop
  import VersionReq
  import Versions
  import EnvClassify

  // ------------------------------------------------------------- runtimes

  function ManifestRuntimes(manifest: string): seq<string> {
    if manifest == "package.json" then ["node", "npm"]
    else if manifest == "go.mod" then ["go"]
    else if manifest == "pom.xml" then ["java", "maven"]
    else if manifest == "build.gradle" || manifest == "build.gradle.kts" then ["java", "gradle"]
    else if manifest == "requirements.txt" || manifest == "pyproject.toml" then ["python"]
    else if manifest == "Cargo.toml" then ["rust", "cargo"]
    else []
  }

  /** Every name a generated config can hold. */
  const DETECTABLE: seq<string> := ["node", "npm", "go", "java", "maven", "gradle", "python", "rust", "cargo", "docker"]

  const REQUIRED := "required"

  function RequirementFor(runtimes: Runtimes, rt: string): string {
    match LookupRuntime(runtimes, rt)
    case None => REQUIRED
    case Some(info) =>
      if info.present && Versions.MajorOf(info.version) != ""
      then VersionReq.OpText(VersionReq.Ge) + Versions.MajorOf(info.version)
      else REQUIRED
  }

  ghost predicate Implied(manifests: seq<string>, rt: string) {
    exists i | 0 <= i < |manifests| :: rt in ManifestRuntimes(manifests[i])
  }

  /** A snapshot's requirements: one entry per implied runtime, docker by its marker files. */
  ghost predicate IsDetected(out: map<string, string>, manifests: seq<string>, runtimes: Runtimes, dockerMarker: bool) {
    && (forall rt :: rt in out <==> Implied(manifests, rt) || (dockerMarker && rt == "docker"))
    && (forall rt | rt in out ::
          out[rt] == if dockerMarker && rt == "docker" then REQUIRED else RequirementFor(runtimes, rt))
  }

  method DetectRuntimes(manifests: seq<string>, runtimes: Runtimes, dockerMarker: bool)
      returns (out: map<string, string>)
    ensures IsDetected(out, manifests, runtimes, dockerMarker)
  {
    hide RequirementFor, ManifestRuntimes;
    out := map[];
    for i := 0 to |manifests|
      invariant forall rt :: rt in out <==> Implied(manifests[..i], rt)
      invariant forall rt | rt in out :: out[rt] == RequirementFor(runtimes, rt)
    {
      var rts := ManifestRuntimes(manifests[i]);
      ghost var before := out;
      for j := 0 to |rts|
        invariant forall rt :: rt in out <==> rt in before || rt in rts[..j]
        invariant forall rt | rt in out :: out[rt] == RequirementFor(runtimes, rt)
      {
        assert rts[..j + 1] == rts[..j] + [rts[j]];
        out := out[rts[j] := RequirementFor(runtimes, rts[j])];
      }
      assert rts[..|rts|] == rts;
      ImpliedStep(manifests, i);
    }
    assert manifests[..|manifests|] == manifests;
    if dockerMarker {
      out := out["docker" := REQUIRED];
    }
  }

  lemma ImpliedStep(manifests: seq<string>, i: nat)
    requires i < |manifests|
    ensures forall rt :: Implied(manifests[..i + 1], rt) <==>
              Implied(manifests[..i], rt) || rt in ManifestRuntimes(manifests[i])
  {
    var p, q := manifests[..i], manifests[..i + 1];
    assert q == p + [manifests[i]];
    forall rt
      ensures Implied(q, rt) <==> Implied(p, rt) || rt in ManifestRuntimes(manifests[i])
    {
      if Implied(p, rt) {
        var j :| 0 <= j < |p| && rt in ManifestRuntimes(p[j]);
        assert q[j] == p[j];
      }
      if rt in ManifestRuntimes(manifests[i]) { assert q[i] == manifests[i]; }
    }
  }

  lemma FoldsTo(name: string, i: nat)
    requires i < |RUNTIME_NAMES| && EqualFold(RUNTIME_NAMES[i], name)
    ensures RuntimeIndexFrom(name, 0).Some?
  {
  }

  /** Every detectable name is a runtime the check knows. */
  lemma DetectableKnown(runtimes: Runtimes, name: string)
    requires name in DETECTABLE
    ensures LookupRuntime(runtimes, name).Some?
  {
    var display :=
      if name == "node" then 0 else if name == "npm" then 1 else if name == "go" then 10 else if name == "java" then 7
      else if name == "maven" then 8 else if name == "gradle" then 9 else if name == "python" then 4
      else if name == "rust" then 11 else if name == "cargo" then 12 else 13;
    assert Lower(RUNTIME_NAMES[display]) == name;
    assert Lower(name) == name;
    FoldsTo(name, display);
  }

  lemma ImpliedDetectable(manifests: seq<string>, rt: string)
    requires Implied(manifests, rt)
    ensures rt in DETECTABLE
  {
    var i :| 0 <= i < |manifests| && rt in ManifestRuntimes(manifests[i]);
  }

  /** A version whose major is the one integer the requirement parser cannot read. */
  ghost predicate UnreadableMajor(v: string) {
    Versions.MajorOf(v) != "" && Atoi(Versions.MajorOf(v)) == Some(MIN_INT64)
  }

  lemma KeywordRequired()
    ensures VersionReq.IsRequiredKeyword(REQUIRED)
  {
    TrimOfTrimmed(REQUIRED);
    assert Lower(REQUIRED) == REQUIRED;
  }

  lemma AtLeastIsNoKeyword(m: string)
    requires m != "" && NoSpace(m)
    ensures !VersionReq.IsRequiredKeyword(VersionReq.OpText(VersionReq.Ge) + m)
  {
    var s := VersionReq.OpText(VersionReq.Ge) + m;
    assert s[0] == '>' && s[|s| - 1] == m[|m| - 1];
    TrimOfTrimmed(s);
    assert Lower(s)[0] == '>';
  }

  /** What the check says of one generated requirement on the machine it came from. */
  lemma OwnRequirementFinding(runtimes: Runtimes, name: string)
    requires LookupRuntime(runtimes, name).Some?
    ensures var info := LookupRuntime(runtimes, name).value;
      var req := RequirementFor(runtimes, name);
      RuntimeFinding(name, req, Some(info)) ==
        if !info.present then [MissingRuntime(name, REQUIRED)]
        else if UnreadableMajor(info.version) then [UnverifiedRuntime(name, info.version, req)]
        else []
  {
    var info := LookupRuntime(runtimes, name).value;
    KeywordRequired();
    var m := Versions.MajorOf(info.version);
    if info.present && m != "" {
      Versions.GeneratedRequirementAcceptsItsVersion(info.version);
      var rest := Versions.MajorThenRest(info.version);
      var sign, d := Versions.AtoiParts(m);
      Versions.SignedDigitsShape(sign, d);
      AtLeastIsNoKeyword(m);
    }
  }

  /** The findings a freshly generated config deserves: exactly the absent runtimes, all critical. */
  function AbsentItems(names: seq<string>, runtimes: Runtimes): seq<Item> {
    if names == [] then []
    else AbsentItems(names[..|names| - 1], runtimes) + AbsentItem(names[|names| - 1], runtimes)
  }

  function AbsentItem(name: string, runtimes: Runtimes): seq<Item> {
    match LookupRuntime(runtimes, name)
    case Some(info) => if info.present then [] else [MissingRuntime(name, REQUIRED)]
    case None => []
  }

  ghost predicate MajorsReadable(names: seq<string>, runtimes: Runtimes) {
    forall i | 0 <= i < |names| ::
      var info := LookupRuntime(runtimes, names[i]);
      info.Some? && info.value.present && names[i] != "docker" ==> !UnreadableMajor(info.value.version)
  }

  lemma DetectedFinding(out: map<string, string>, manifests: seq<string>, runtimes: Runtimes,
      marker: bool, name: string)
    requires IsDetected(out, manifests, runtimes, marker) && name in out
    ensures LookupRuntime(runtimes, name).Some?
    ensures var info := LookupRuntime(runtimes, name).value;
      RuntimeFinding(name, out[name], Some(info)) ==
        if !info.present then [MissingRuntime(name, REQUIRED)]
        else if name != "docker" && UnreadableMajor(info.version) then
          [UnverifiedRuntime(name, info.version, out[name])]
        else []
  {
    if marker && name == "docker" {
      DetectableKnown(runtimes, name);
      KeywordRequired();
    } else {
      ImpliedDetectable(manifests, name);
      DetectableKnown(runtimes, name);
      OwnRequirementFinding(runtimes, name);
      DockerNotImplied(manifests, name);
    }
  }

  lemma DockerNotImplied(manifests: seq<string>, name: string)
    requires Implied(manifests, name)
    ensures name != "docker"
  {
    var i :| 0 <= i < |manifests| && name in ManifestRuntimes(manifests[i]);
  }

  lemma DetectedFindingOr(out: map<string, string>, manifests: seq<string>, runtimes: Runtimes,
      marker: bool, name: string)
    requires IsDetected(out, manifests, runtimes, marker) && name in out
    ensures var f := FindingFor(name, out, [], runtimes);
      if MajorsReadable([name], runtimes) then f == AbsentItem(name, runtimes)
      else |f| == 1 && AbsentItem(name, runtimes) == []
  {
    DetectedFinding(out, manifests, runtimes, marker, name);
    assert [name][0] == name;
  }

  lemma {:induction false} DetectedItems(names: seq<string>, out: map<string, string>, manifests: seq<string>,
      runtimes: Runtimes, marker: bool)
    requires IsDetected(out, manifests, runtimes, marker) && forall n | n in names :: n in out
    ensures |AbsentItems(names, runtimes)| <= |RuntimeItems(names, out, [], runtimes)|
    ensures RuntimeItems(names, out, [], runtimes) == AbsentItems(names, runtimes) <==> MajorsReadable(names, runtimes)
  {
    if names != [] {
      var front, name := names[..|names| - 1], names[|names| - 1];
      assert name in names;
      assert forall n | n in front :: n in names;
      DetectedItems(front, out, manifests, runtimes, marker);
      DetectedFindingOr(out, manifests, runtimes, marker, name);
      MajorsReadableStep(names, runtimes);
      SuffixEqual(RuntimeItems(front, out, [], runtimes), AbsentItems(front, runtimes),
                  FindingFor(name, out, [], runtimes), AbsentItem(name, runtimes));
    }
  }

  lemma MajorsReadableStep(names: seq<string>, runtimes: Runtimes)
    requires names != []
    ensures MajorsReadable(names, runtimes) <==>
              MajorsReadable(names[..|names| - 1], runtimes) && MajorsReadable([names[|names| - 1]], runtimes)
  {
    var front, last := names[..|names| - 1], names[|names| - 1];
    assert forall i | 0 <= i < |names| :: names[i] == if i < |front| then front[i] else last;
    assert [last][0] == last;
  }

  lemma SuffixEqual(a: seq<Item>, b: seq<Item>, x: seq<Item>, y: seq<Item>)
    requires |b| <= |a| && (x == y || |x| > |y|)
    ensures a + x == b + y <==> a == b && x == y
  {
    if a + x == b + y {
      assert |a| == |b|;
      assert (a + x)[..|a|] == a && (b + y)[..|b|] == b;
    }
  }

  /**
   Check after init on the same machine: the runtime findings are exactly the absent runtimes,
   all critical, iff no present version's major reads as the smallest 64-bit integer.
   */
  lemma InitThenCheckRuntimes(out: map<string, string>, manifests: seq<string>, runtimes: Runtimes, marker: bool)
    requires IsDetected(out, manifests, runtimes, marker)
    ensures var names := SortedNames(out.Keys);
      RuntimeItems(names, out, [], runtimes) == AbsentItems(names, runtimes) <==> MajorsReadable(names, runtimes)
  {
    DetectedItems(SortedNames(out.Keys), out, manifests, runtimes, marker);
  }

  // ------------------------------------------------------------- env keys

  /** The env section init writes for an example file. */
  function EnvSection(example: string): EnvConfig {
    var entries := EnvClassify.ClassifyExample(example);
    EnvConfig(EnvClassify.KeysOfClass(entries, EnvClassify.Required),
        EnvClassify.KeysOfClass(entries, EnvClassify.Recommended))
  }

  method GenerateEnvSection(example: string) returns (cfg: EnvConfig)
    ensures cfg == EnvSection(example)
  {
    var entries := EnvClassify.ClassifyEnvExample(example);
    var req, rec, opt := EnvClassify.SplitByClass(entries);
    cfg := EnvConfig(req, rec);
  }

  /** Required and recommended keys, each by a line of the example that makes them so. */
  lemma SectionFromText(example: string, k: string)
    ensures k in EnvSection(example).required <==>
              EnvClassify.SomeLineGives(Lines(example), k, EnvClassify.Required)
    ensures k in EnvSection(example).recommended <==>
              EnvClassify.SomeLineGives(Lines(example), k, EnvClassify.Recommended)
  {
    hide Lines, EnvClassify.SomeLineGives, EnvClassify.ClassifyExample, EnvClassify.KeysOfClass;
    EnvClassify.ClassFromText(example, k, EnvClassify.Required);
    EnvClassify.ClassFromText(example, k, EnvClassify.Recommended);
  }

  lemma SectionKeysDeclared(example: string)
    ensures forall k | k in EnvSection(example).required || k in EnvSection(example).recommended ::
              k in ReadKeys(example)
  {
    var es := EnvClassify.ClassifyExample(example);
    EnvClassify.SplitConservesExampleKeys(example);
    var req, rec, opt := multiset(EnvClassify.KeysOfClass(es, EnvClassify.Required)),
                         multiset(EnvClassify.KeysOfClass(es, EnvClassify.Recommended)),
                         multiset(EnvClassify.KeysOfClass(es, EnvClassify.Optional));
    forall k | k in EnvSection(example).required || k in EnvSection(example).recommended
      ensures k in ReadKeys(example)
    {
      assert k in req + rec + opt;
      assert k in multiset(ReadKeys(example));
    }
  }

  /**
   Init, then one fix: for every example whose keys survive copying, whatever they are named,
   the generated config is satisfied after one round that starts without an env file.
   */
  lemma InitThenFixConverges(example: string, pre: seq<Item>, post: seq<Item>)
    requires Copyable(example) && NoEnvItems(pre) && NoEnvItems(post)
    ensures Clean(EnvSection(example), FixRound(EnvSection(example), pre, post, Some(example), None))
  {
    var cfg := EnvSection(example);
    hide EnvSection, CopyText, ReadKeys, FixRound, Copyable;
    RoundText(cfg, pre, post, Some(example), None);
    AllMissing(cfg.required);
    AllMissing(cfg.recommended);
    SectionKeysDeclared(example);
    CopyKeepsKeysExactly(example);
    if cfg.required + cfg.recommended == [] {
      EnvCleanExactly(cfg, None);
    } else {
      CopyReadBack(example);
      var more := Placeholders(if cfg.recommended == [] then Appended(MustHave, cfg.required)
          else Appended(ShouldHave, cfg.recommended));
      ReadKeysAppend(CopyText(example), more);
      EnvCleanExactly(cfg, Some(CopyText(example) + more));
    }
  }
}
