/** Shareable baselines: what sanitizing removes, and the report a comparison against one produces. */
module Baseline {
  import opened Text
  import opened Model
  import opened Diff
  import Reports
  import Versions

  // -------------------------------------------------------------- sanitize

  function TrimmedEnd(path: string, j: nat): (n: nat)
    requires j <= |path|
    ensures n <= j && (n > 0 ==> path[n - 1] != '/')
    ensures forall i | n <= i < j :: path[i] == '/'
  {
    if j > 0 && path[j - 1] == '/' then TrimmedEnd(path, j - 1) else j
  }

  function LastElementStart(path: string, j: nat): (n: nat)
    requires j <= |path|
    ensures n <= j && (n > 0 ==> path[n - 1] == '/')
    ensures forall i | n <= i < j :: path[i] != '/'
  {
    if j > 0 && path[j - 1] != '/' then LastElementStart(path, j - 1) else j
  }

  predicate NoSlash(s: string) { forall i | 0 <= i < |s| :: s[i] != '/' }

  /** filepath.Base: the last element of a path. */
  function BaseName(path: string): string {
    if path == "" then "."
    else
      var end := TrimmedEnd(path, |path|);
      var start := LastElementStart(path, end);
      if start == end then "/" else path[start..end]
  }

  function Sanitize(s: Snapshot): Snapshot {
    s.(hostname := "", projectRoot := "",
       projectName := if s.projectName == "" && s.projectRoot != "" then BaseName(s.projectRoot) else s.projectName)
  }

  function Slashes(n: nat): (r: string)
    ensures |r| == n && forall i | 0 <= i < n :: r[i] == '/'
  {
    seq(n, i => '/')
  }

  /** Of a path only its last element survives, trailing slashes or not. */
  lemma BaseNameOfPath(dir: string, name: string, n: nat)
    requires name != "" && NoSlash(name) && (dir == "" || dir[|dir| - 1] == '/')
    ensures BaseName(dir + name + Slashes(n)) == name
  {
    var p, path := dir + name, dir + name + Slashes(n);
    assert forall i | 0 <= i < |name| :: path[|dir| + i] == name[i];
    assert forall i | |p| <= i < |path| :: path[i] == Slashes(n)[i - |p|];
    assert path[|p| - 1] == name[|name| - 1];
    assert TrimmedEnd(path, |path|) == |p|;
    assert dir != "" ==> path[|dir| - 1] == dir[|dir| - 1];
    assert LastElementStart(path, |p|) == |dir|;
    assert path[|dir|..|p|] == name;
  }

  /** A path of slashes only is the root, and no path at all the current directory. */
  lemma BaseNameOfNone(n: nat)
    ensures BaseName(Slashes(n)) == if n == 0 then "." else "/"
  {
    assert forall i | 0 <= i < n :: Slashes(n)[i] == '/';
    assert n > 0 ==> TrimmedEnd(Slashes(n), n) == 0;
  }

  /** Sanitizing twice changes nothing more; no hostname, no directory remains. */
  lemma SanitizedOnce(s: Snapshot, host: string, root: string)
    ensures Sanitize(Sanitize(s)) == Sanitize(s)
    ensures Sanitize(s).hostname == "" && Sanitize(s).projectRoot == ""
    ensures s.projectName == "" ==> NoSlash(Sanitize(s).projectName) || Sanitize(s).projectName == "/"
    ensures s.projectName != "" ==> Sanitize(s.(hostname := host, projectRoot := root)) == Sanitize(s)
  {
    if s.projectName == "" && s.projectRoot != "" {
      var end := TrimmedEnd(s.projectRoot, |s.projectRoot|);
      assert NoSlash(s.projectRoot[LastElementStart(s.projectRoot, end)..end]);
    }
  }

  /** A project without a name is called like its directory, whatever leads there; a named one keeps its name. */
  lemma SanitizedName(s: Snapshot, dir: string, name: string, n: nat)
    requires name != "" && NoSlash(name) && (dir == "" || dir[|dir| - 1] == '/')
    ensures Sanitize(s.(projectRoot := dir + name + Slashes(n))).projectName ==
            if s.projectName == "" then name else s.projectName
    ensures Sanitize(s.(projectRoot := "")).projectName == s.projectName
  {
    hide BaseName;
    BaseNameOfPath(dir, name, n);
    assert |dir + name + Slashes(n)| > 0;
  }

  /** Only those three fields change. */
  lemma SanitizedRest(s: Snapshot)
    ensures var r := Sanitize(s);
      && r.manifests == s.manifests && r.os == s.os && r.arch == s.arch && r.gitVersion == s.gitVersion
      && r.runtimes == s.runtimes && r.ports == s.ports && r.missingKeys == s.missingKeys
  {
  }

  // --------------------------------------------------------------- compare

  function MapSeverity(s: Severity): Reports.Severity {
    match s
    case Critical => Reports.Critical
    case Difference => Reports.Warning
    case Info => Reports.Info
  }

  function ItemFor(e: Entry): Reports.Item {
    Reports.Item(e.category, e.name, e.a, e.b, MapSeverity(e.severity), e.blocker)
  }

  function ItemsFor(es: seq<Entry>): (r: seq<Reports.Item>)
    ensures |r| == |es| && forall i | 0 <= i < |es| :: r[i] == ItemFor(es[i])
  {
    seq(|es|, i requires 0 <= i < |es| => ItemFor(es[i]))
  }

  datatype Verdict = Matches | DiffersSlightly | Differs

  function StatusText(v: Verdict): string {
    match v
    case Matches => "Your setup matches baseline"
    case DiffersSlightly => "Your setup differs from baseline (minor)"
    case Differs => "Your setup differs from baseline"
  }

  const YOURS := "yours"

  ghost function Drift(baseline: Snapshot, current: Snapshot): seq<Entry> {
    FullDiff(baseline, current, BASELINE, YOURS)
  }

  predicate HasCritical(es: seq<Entry>) { exists i | 0 <= i < |es| :: es[i].severity == Critical }

  ghost function VerdictOf(baseline: Snapshot, current: Snapshot): Verdict {
    var es := Drift(baseline, current);
    if HasCritical(es) then Differs else if es != [] then DiffersSlightly else Matches
  }

  method FileItems(r: Reports.Report, es: seq<Entry>)
    requires r.items == []
    modifies r`items
    ensures r.items == ItemsFor(es)
  {
    for i := 0 to |es|
      invariant r.items == ItemsFor(es[..i])
    {
      r.Add(ItemFor(es[i]));
      assert es[..i + 1][..i] == es[..i];
    }
    assert es[..|es|] == es;
  }

  method CompareToBaseline(baseline: Snapshot, current: Snapshot) returns (entries: seq<Entry>)
    ensures entries == Drift(baseline, current)
  {
    hide Entries, AllInContext;
    var res := new DiffResult(baseline, current, BASELINE, YOURS);
    res.ApplyProjectContext(baseline, current);
    entries := res.entries;
  }

  method Compare(baseline: Snapshot, current: Snapshot) returns (r: Reports.Report)
    ensures fresh(r)
    ensures r.items == ItemsFor(Drift(baseline, current))
    ensures r.status == StatusText(VerdictOf(baseline, current))
    ensures r.project == (if baseline.projectName != "" then baseline.projectName else current.projectName)
    ensures r.foundLabel == BASELINE && r.expLabel == YOURS
  {
    var entries := CompareToBaseline(baseline, current);
    hide Drift;
    r := new Reports.Report();
    r.project := if baseline.projectName != "" then baseline.projectName else current.projectName;
    r.foundLabel, r.expLabel := BASELINE, YOURS;
    FileItems(r, entries);
    CriticalItems(entries);
    var failed := r.Failed();
    hide HasCritical;
    if failed {
      r.status := StatusText(Differs);
    } else if |r.items| > 0 {
      r.status := StatusText(DiffersSlightly);
    } else {
      r.status := StatusText(Matches);
    }
  }

  lemma CriticalItems(es: seq<Entry>)
    ensures (exists it | it in ItemsFor(es) :: it.severity == Reports.Critical) <==> HasCritical(es)
  {
    var items := ItemsFor(es);
    if it :| it in items && it.severity == Reports.Critical {
      var i :| 0 <= i < |items| && items[i] == it;
      assert es[i].severity == Critical;
    }
    if HasCritical(es) {
      var i :| 0 <= i < |es| && es[i].severity == Critical;
      assert items[i] in items;
    }
  }

  /** Filing an entry under its mapped severity loses none and moves none. */
  lemma {:induction false} SeverityCarriesOver(es: seq<Entry>, s: Severity)
    ensures Reports.OfSeverity(ItemsFor(es), MapSeverity(s)) == ItemsFor(EntriesOf(es, s))
  {
    if es != [] {
      var n := |es| - 1;
      SeverityCarriesOver(es[..n], s);
      assert ItemsFor(es)[..n] == ItemsFor(es[..n]);
    }
  }

  // ---------------------------------------------------- the verdict, exactly

  ghost predicate CriticalRuntime(name: string, a: VersionInfo, b: VersionInfo, required: set<string>) {
    if a.present && b.present then
      a.version != b.version
      && (Versions.MajorDiffers(a.version, b.version)
          || (name in required && (a.version == MISSING || b.version == MISSING)))
    else a.present != b.present && name in required
  }

  /**
   A major version apart, a required runtime on one side only or reading "missing" beside another
   version, or differing missing keys.
   */
  ghost predicate CriticalDrift(a: Snapshot, b: Snapshot) {
    var required := RequiredRuntimes(a.manifests, b.manifests);
    || (exists i | 0 <= i < |RUNTIME_NAMES| ::
          CriticalRuntime(RUNTIME_NAMES[i], RuntimeInfos(a.runtimes)[i], RuntimeInfos(b.runtimes)[i], required))
    || (exists k :: (k in a.missingKeys) != (k in b.missingKeys))
  }

  lemma CriticalConcat(x: seq<Entry>, y: seq<Entry>)
    ensures HasCritical(x + y) <==> HasCritical(x) || HasCritical(y)
  {
    if HasCritical(x) {
      var i :| 0 <= i < |x| && x[i].severity == Critical;
      assert (x + y)[i].severity == Critical;
    }
    if HasCritical(y) {
      var i :| 0 <= i < |y| && y[i].severity == Critical;
      assert (x + y)[|x| + i].severity == Critical;
    }
  }

  lemma OneCritical(name: string, a: VersionInfo, b: VersionInfo, required: set<string>, na: string, nb: string)
    ensures HasCritical(AllInContext(CompareRuntime(name, a, b), required, na, nb)) <==>
              CriticalRuntime(name, a, b, required)
  {
    hide Versions.MajorDiffers, MissingOn;
    var es := CompareRuntime(name, a, b);
    var once := AllInContext(es, required, na, nb);
    if es != [] {
      assert |es| == 1 && once == [InContext(es[0], required, na, nb)];
      assert HasCritical(once) <==> once[0].severity == Critical;
    }
  }

  lemma {:induction false} RuntimesCritical(names: seq<string>, a: seq<VersionInfo>, b: seq<VersionInfo>,
      required: set<string>, na: string, nb: string)
    requires |names| == |a| == |b|
    ensures HasCritical(AllInContext(DiffRuntimes(names, a, b), required, na, nb))
       <==> exists i | 0 <= i < |names| :: CriticalRuntime(names[i], a[i], b[i], required)
  {
    hide CompareRuntime, InContext, CriticalRuntime;
    if names != [] {
      hide HasCritical;
      var n := |names| - 1;
      RuntimesCritical(names[..n], a[..n], b[..n], required, na, nb);
      OneCritical(names[n], a[n], b[n], required, na, nb);
      ContextSplits(DiffRuntimes(names[..n], a[..n], b[..n]), CompareRuntime(names[n], a[n], b[n]), required, na, nb);
    }
  }

  lemma ContextSplits(x: seq<Entry>, y: seq<Entry>, required: set<string>, na: string, nb: string)
    ensures HasCritical(AllInContext(x + y, required, na, nb))
       <==> HasCritical(AllInContext(x, required, na, nb)) || HasCritical(AllInContext(y, required, na, nb))
  {
    hide InContext, HasCritical;
    assert AllInContext(x + y, required, na, nb) == AllInContext(x, required, na, nb)
        + AllInContext(y, required, na, nb);
    CriticalConcat(AllInContext(x, required, na, nb), AllInContext(y, required, na, nb));
  }

  lemma NoneCritical(es: seq<Entry>, required: set<string>, na: string, nb: string)
    requires forall i | 0 <= i < |es| :: es[i].category != "Runtime" && es[i].severity != Critical
    ensures !HasCritical(AllInContext(es, required, na, nb))
  {
  }

  lemma {:induction false} PortsNeverCritical(ports: seq<int>, a: map<int, PortInfo>, b: map<int, PortInfo>)
    ensures forall i | 0 <= i < |PortEntries(ports, a, b)| ::
              PortEntries(ports, a, b)[i].category != "Runtime" && PortEntries(ports, a, b)[i].severity != Critical
  {
    if ports != [] { PortsNeverCritical(ports[..|ports| - 1], a, b); }
  }

  lemma EnvironmentNeverCritical(a: Snapshot, b: Snapshot)
    ensures forall i | 0 <= i < |DiffEnvironment(a, b)| ::
              DiffEnvironment(a, b)[i].category != "Runtime" && DiffEnvironment(a, b)[i].severity != Critical
  {
  }

  lemma EnvKeysCritical(a: seq<string>, b: seq<string>, required: set<string>, na: string, nb: string)
    ensures HasCritical(AllInContext(DiffEnvFiles(a, b), required, na, nb)) <==> exists k :: (k in a) != (k in b)
  {
    var x, y := Subtract(b, a), Subtract(a, b);
    hide Join;
    var once := AllInContext(DiffEnvFiles(a, b), required, na, nb);
    assert once == DiffEnvFiles(a, b);
    if x != [] { assert x[0] in x; assert once[0].severity == Critical; }
    if y != [] { assert y[0] in y; assert once[|once| - 1].severity == Critical; }
  }

  lemma CriticalExactly(a: Snapshot, b: Snapshot)
    ensures HasCritical(Drift(a, b)) <==> CriticalDrift(a, b)
  {
    hide AllInContext, HasCritical, DiffEnvironment, DiffRuntimes, DiffEnvFiles, RequiredRuntimes,
        RuntimeInfos, CriticalRuntime,
      UnionPorts, PortEntries;
    var req := RequiredRuntimes(a.manifests, b.manifests);
    var e1, e3, e4 := DiffEnvironment(a, b), DiffPorts(a.ports, b.ports), DiffEnvFiles(a.missingKeys, b.missingKeys);
    var e2 := DiffRuntimes(RUNTIME_NAMES, RuntimeInfos(a.runtimes), RuntimeInfos(b.runtimes));
    EnvironmentNeverCritical(a, b);
    NoneCritical(e1, req, BASELINE, YOURS);
    RuntimesCritical(RUNTIME_NAMES, RuntimeInfos(a.runtimes), RuntimeInfos(b.runtimes), req, BASELINE, YOURS);
    PortsNeverCritical(UnionPorts(a.ports, b.ports), a.ports, b.ports);
    NoneCritical(e3, req, BASELINE, YOURS);
    EnvKeysCritical(a.missingKeys, b.missingKeys, req, BASELINE, YOURS);
    ContextSplits(e1, e2, req, BASELINE, YOURS);
    ContextSplits(e1 + e2, e3, req, BASELINE, YOURS);
    ContextSplits(e1 + e2 + e3, e4, req, BASELINE, YOURS);
  }

  lemma EmptyExactly(a: Snapshot, b: Snapshot)
    ensures Drift(a, b) == [] <==> NoDrift(a, b) && a.os == b.os && a.arch == b.arch
  {
    FullDiffVerdict(a, b, BASELINE, YOURS);
    InfoEntries(a, b);
  }

  lemma InfoEntries(a: Snapshot, b: Snapshot)
    ensures Drift(a, b) == [] <==> !HasDifferences(Drift(a, b)) && a.os == b.os && a.arch == b.arch
  {
    var es := Drift(a, b);
    NoDriftExactly(a, b);
    FullDiffVerdict(a, b, BASELINE, YOURS);
    EntriesEmpty(a, b);
    hide Entries, NoDrift, HasDifferences;
    assert |es| == |Entries(a, b)|;
  }

  /** Without a difference that matters, only OS and architecture can leave an entry. */
  lemma EntriesEmpty(a: Snapshot, b: Snapshot)
    ensures Entries(a, b) == [] <==> !HasDifferences(Entries(a, b)) && a.os == b.os && a.arch == b.arch
  {
    var e1, e3, e4 := DiffEnvironment(a, b), DiffPorts(a.ports, b.ports), DiffEnvFiles(a.missingKeys, b.missingKeys);
    var e2 := DiffRuntimes(RUNTIME_NAMES, RuntimeInfos(a.runtimes), RuntimeInfos(b.runtimes));
    RuntimeEntriesMatter(RUNTIME_NAMES, RuntimeInfos(a.runtimes), RuntimeInfos(b.runtimes));
    PortEntriesMatter(UnionPorts(a.ports, b.ports), a.ports, b.ports);
    EnvFilesMatter(a.missingKeys, b.missingKeys);
    EnvironmentDifferences(a, b);
    EnvironmentEmpty(a, b);
    EmptyParts(e1, e2, e3, e4);
  }

  lemma EnvironmentEmpty(a: Snapshot, b: Snapshot)
    ensures DiffEnvironment(a, b) == [] <==> a.os == b.os && a.arch == b.arch && a.gitVersion == b.gitVersion
  {
  }

  ghost predicate AllMatter(es: seq<Entry>) { forall i | 0 <= i < |es| :: es[i].severity != Info }

  lemma EmptyParts(e1: seq<Entry>, e2: seq<Entry>, e3: seq<Entry>, e4: seq<Entry>)
    requires AllMatter(e2) && AllMatter(e3) && AllMatter(e4)
    ensures e1 + e2 + e3 + e4 == [] <==> e1 == [] && !HasDifferences(e1 + e2 + e3 + e4)
    ensures HasDifferences(e1) ==> HasDifferences(e1 + e2 + e3 + e4)
  {
    DifferencesConcat(e1, e2);
    DifferencesConcat(e1 + e2, e3);
    DifferencesConcat(e1 + e2 + e3, e4);
    if e2 != [] { assert e2[0].severity != Info; }
    if e3 != [] { assert e3[0].severity != Info; }
    if e4 != [] { assert e4[0].severity != Info; }
  }

  lemma {:induction false} PortEntriesMatter(ports: seq<int>, a: map<int, PortInfo>, b: map<int, PortInfo>)
    ensures AllMatter(PortEntries(ports, a, b))
  {
    if ports != [] { PortEntriesMatter(ports[..|ports| - 1], a, b); }
  }

  lemma EnvFilesMatter(a: seq<string>, b: seq<string>)
    ensures AllMatter(DiffEnvFiles(a, b))
  {
    hide Join, Subtract;
  }

  lemma StatusTextsDiffer(v: Verdict, w: Verdict)
    ensures StatusText(v) == StatusText(w) <==> v == w
  {
    assert |StatusText(Matches)| == 27 && |StatusText(DiffersSlightly)| == 40 && |StatusText(Differs)| == 32;
  }

  /** The three-way status and its text, read off the two machines. */
  lemma StatusExactly(a: Snapshot, b: Snapshot)
    ensures VerdictOf(a, b) == Differs <==> CriticalDrift(a, b)
    ensures VerdictOf(a, b) == Matches <==> NoDrift(a, b) && a.os == b.os && a.arch == b.arch
    ensures StatusText(VerdictOf(a, b)) == StatusText(Differs) <==> CriticalDrift(a, b)
    ensures StatusText(VerdictOf(a, b)) == StatusText(Matches) <==> NoDrift(a, b) && a.os == b.os && a.arch == b.arch
  {
    CriticalExactly(a, b);
    EmptyExactly(a, b);
    StatusTextsDiffer(VerdictOf(a, b), Differs);
    StatusTextsDiffer(VerdictOf(a, b), Matches);
    hide Drift, CriticalDrift, NoDrift, StatusText;
    assert Drift(a, b) == [] ==> !HasCritical(Drift(a, b));
  }

  /** Sanitizing either side changes neither the items nor the status. */
  lemma SanitizingIsInvisible(a: Snapshot, b: Snapshot)
    ensures Drift(Sanitize(a), Sanitize(b)) == Drift(a, b)
    ensures VerdictOf(Sanitize(a), Sanitize(b)) == VerdictOf(a, b)
    ensures VerdictOf(Sanitize(a), a) == Matches
  {
    hide DiffRuntimes, DiffEnvironment, DiffPorts, DiffEnvFiles, RequiredRuntimes, HasCritical, AllInContext;
    var x, y := Sanitize(a), Sanitize(b);
    assert DiffEnvironment(x, y) == DiffEnvironment(a, b) by { EnvironmentReads(a, b, x, y); }
    assert Drift(x, y) == Drift(a, b);
    SanitizedMatches(a);
  }

  lemma EnvironmentReads(a: Snapshot, b: Snapshot, x: Snapshot, y: Snapshot)
    requires x.os == a.os && x.arch == a.arch && x.gitVersion == a.gitVersion
    requires y.os == b.os && y.arch == b.arch && y.gitVersion == b.gitVersion
    ensures DiffEnvironment(x, y) == DiffEnvironment(a, b)
  {
  }

  lemma SanitizedMatches(a: Snapshot)
    ensures VerdictOf(Sanitize(a), a) == Matches
  {
    hide *;
    SanitizedRest(a);
    SanitizedSame(Sanitize(a), a);
    StatusExactly(Sanitize(a), a);
  }

  lemma SanitizedSame(s: Snapshot, a: Snapshot)
    requires s.gitVersion == a.gitVersion && s.runtimes == a.runtimes && s.ports == a.ports
    requires s.missingKeys == a.missingKeys
    ensures NoDrift(s, a)
  {
  }
}
