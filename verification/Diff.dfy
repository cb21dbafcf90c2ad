/** Comparing two snapshots into ranked entries with plain-text blockers. */
module Diff {
  import opened Text
  import opened Decimal
  import opened Sorting
  import opened Model
  import Reports
  import Versions

  datatype Severity = Critical | Difference | Info

  datatype Entry = Entry(category: string, name: string, a: string, b: string, severity: Severity, blocker: string)

  const MISSING := "missing"
  const BASELINE := "baseline"

  // ---------------------------------------------------------- environment

  function OrMissing(s: string): string { if s == "" then MISSING else s }

  function FieldEntry(name: string, a: string, b: string, severity: Severity): seq<Entry> {
    if a == b then []
    else if severity == Info then [Entry("Environment", name, a, b, Info, "")]
    else [Entry("Environment", name, OrMissing(a), OrMissing(b), severity, "")]
  }

  function DiffEnvironment(a: Snapshot, b: Snapshot): seq<Entry> {
    FieldEntry("OS", a.os, b.os, Info) + FieldEntry("Arch", a.arch, b.arch, Info)
    + FieldEntry("git", a.gitVersion, b.gitVersion, Difference)
  }

  // ------------------------------------------------------------- runtimes

  function RuntimeEntry(name: string, a: string, b: string, severity: Severity): Entry {
    Entry("Runtime", name, a, b, severity,
          if severity == Critical then MismatchText(name, a, b) else "")
  }

  function MismatchText(name: string, a: string, b: string): string {
    name + " major version mismatch (" + a + " vs " + b + ")"
  }

  function CompareRuntime(name: string, a: VersionInfo, b: VersionInfo): seq<Entry> {
    if a.present && !b.present then [RuntimeEntry(name, a.version, MISSING, Difference)]
    else if !a.present && b.present then [RuntimeEntry(name, MISSING, b.version, Difference)]
    else if !a.present && !b.present then []
    else if a.version != b.version then
      [RuntimeEntry(name, a.version, b.version,
                    if Versions.MajorDiffers(a.version, b.version) then Critical else Difference)]
    else []
  }

  function DiffRuntimes(names: seq<string>, a: seq<VersionInfo>, b: seq<VersionInfo>): seq<Entry>
    requires |names| == |a| == |b|
  {
    if names == [] then []
    else
      var n := |names| - 1;
      DiffRuntimes(names[..n], a[..n], b[..n]) + CompareRuntime(names[n], a[n], b[n])
  }

  method CompareRuntimes(names: seq<string>, a: seq<VersionInfo>, b: seq<VersionInfo>) returns (entries: seq<Entry>)
    requires |names| == |a| == |b|
    ensures entries == DiffRuntimes(names, a, b)
  {
    hide CompareRuntime;
    entries := [];
    for i := 0 to |names|
      invariant entries == DiffRuntimes(names[..i], a[..i], b[..i])
    {
      RuntimesStep(names, a, b, i);
      entries := entries + CompareRuntime(names[i], a[i], b[i]);
    }
    assert names[..|names|] == names && a[..|names|] == a && b[..|names|] == b;
  }

  lemma RuntimesStep(names: seq<string>, a: seq<VersionInfo>, b: seq<VersionInfo>, i: nat)
    requires |names| == |a| == |b| && i < |names|
    ensures DiffRuntimes(names[..i + 1], a[..i + 1], b[..i + 1])
         == DiffRuntimes(names[..i], a[..i], b[..i]) + CompareRuntime(names[i], a[i], b[i])
  {
    hide CompareRuntime;
    assert names[..i + 1][..i] == names[..i] && a[..i + 1][..i] == a[..i] && b[..i + 1][..i] == b[..i];
  }

  // ---------------------------------------------------------------- ports

  function ListeningLabel(l: bool): string { if l then "running" else "not running" }

  function PortLabel(pa: PortInfo, pb: PortInfo): string { if pa.service == "" then pb.service else pa.service }

  function PortName(p: int, service: string): string { FormatInt(p) + " (" + service + ")" }

  function PortEntry(p: int, a: map<int, PortInfo>, b: map<int, PortInfo>): seq<Entry> {
    if p !in a || p !in b || a[p].listening == b[p].listening then []
    else [Entry("Port", PortName(p, PortLabel(a[p], b[p])),
                ListeningLabel(a[p].listening), ListeningLabel(b[p].listening), Difference, "")]
  }

  function PortEntries(ports: seq<int>, a: map<int, PortInfo>, b: map<int, PortInfo>): seq<Entry> {
    if ports == [] then []
    else PortEntries(ports[..|ports| - 1], a, b) + PortEntry(ports[|ports| - 1], a, b)
  }

  ghost function UnionPorts(a: map<int, PortInfo>, b: map<int, PortInfo>): (r: seq<int>)
    ensures forall p :: p in r <==> p in a || p in b
  {
    IntOrder();
    Listing(IntLess, a.Keys + b.Keys)
  }

  ghost function DiffPorts(a: map<int, PortInfo>, b: map<int, PortInfo>): seq<Entry> {
    PortEntries(UnionPorts(a, b), a, b)
  }

  method ComparePortsInOrder(ports: seq<int>, a: map<int, PortInfo>, b: map<int, PortInfo>)
      returns (entries: seq<Entry>)
    ensures entries == PortEntries(ports, a, b)
  {
    entries := [];
    for i := 0 to |ports|
      invariant entries == PortEntries(ports[..i], a, b)
    {
      assert ports[..i + 1][..i] == ports[..i];
      var p := ports[i];
      if p !in a || p !in b {
        continue;
      }
      if a[p].listening == b[p].listening {
        continue;
      }
      var service := a[p].service;
      if service == "" {
        service := b[p].service;
      }
      entries := entries
        + [Entry("Port", PortName(p, service), ListeningLabel(a[p].listening), ListeningLabel(b[p].listening),
            Difference, "")];
    }
    assert ports[..|ports|] == ports;
  }

  method ComparePorts(a: map<int, PortInfo>, b: map<int, PortInfo>) returns (entries: seq<Entry>)
    ensures entries == DiffPorts(a, b)
  {
    IntOrder();
    var ports := SortElements(IntLess, a.Keys + b.Keys);
    entries := ComparePortsInOrder(ports, a, b);
  }

  // -------------------------------------------------------------- env keys

  function Subtract(x: seq<string>, y: seq<string>): (r: seq<string>)
    ensures forall k :: k in r <==> k in x && k !in y
  {
    if x == [] then []
    else
      assert x == x[..|x| - 1] + [x[|x| - 1]];
      Subtract(x[..|x| - 1], y) + if x[|x| - 1] in y then [] else [x[|x| - 1]]
  }

  method SubtractKeys(x: seq<string>, y: seq<string>) returns (out: seq<string>)
    ensures out == Subtract(x, y)
  {
    var yset: set<string> := {};
    for i := 0 to |y|
      invariant forall k :: k in yset <==> k in y[..i]
    {
      assert y[..i + 1] == y[..i] + [y[i]];
      yset := yset + {y[i]};
    }
    assert y[..|y|] == y;
    out := [];
    for i := 0 to |x|
      invariant out == Subtract(x[..i], y)
    {
      assert x[..i + 1][..i] == x[..i];
      if x[i] !in yset {
        out := out + [x[i]];
      }
    }
    assert x[..|x|] == x;
  }

  const ABSENT_ON_A := "required environment variables absent on A: "
  const ABSENT_ON_B := "required environment variables absent on B: "
  const LACKS := "missing: "

  datatype Side = SideA | SideB

  function EnvEntry(side: Side, keys: seq<string>): seq<Entry> {
    if keys == [] then []
    else
      match side
      case SideA => [Entry("Env", ".env keys", LACKS + Join(keys, ", "), "present", Critical,
                           ABSENT_ON_A + Join(keys, ", "))]
      case SideB => [Entry("Env", ".env keys", "present", LACKS + Join(keys, ", "), Critical,
                           ABSENT_ON_B + Join(keys, ", "))]
  }

  function DiffEnvFiles(a: seq<string>, b: seq<string>): seq<Entry> {
    EnvEntry(SideB, Subtract(b, a)) + EnvEntry(SideA, Subtract(a, b))
  }

  method CompareEnvFiles(a: seq<string>, b: seq<string>) returns (entries: seq<Entry>)
    ensures entries == DiffEnvFiles(a, b)
  {
    var onlyB := SubtractKeys(b, a);
    var onlyA := SubtractKeys(a, b);
    entries := EnvEntry(SideB, onlyB) + EnvEntry(SideA, onlyA);
  }

  // ------------------------------------------------------------ the result

  ghost function Entries(a: Snapshot, b: Snapshot): seq<Entry> {
    DiffEnvironment(a, b)
    + DiffRuntimes(RUNTIME_NAMES, RuntimeInfos(a.runtimes), RuntimeInfos(b.runtimes))
    + DiffPorts(a.ports, b.ports)
    + DiffEnvFiles(a.missingKeys, b.missingKeys)
  }

  function ProjectRuntimes(manifest: string): set<string> {
    if manifest == "package.json" then {"Node"}
    else if manifest == "go.mod" then {"Go"}
    else if manifest == "pom.xml" then {"Java", "Maven"}
    else if manifest == "build.gradle" || manifest == "build.gradle.kts" then {"Java", "Gradle"}
    else if manifest == "requirements.txt" || manifest == "pyproject.toml" then {"Python"}
    else if manifest == "Cargo.toml" then {"Rust", "Cargo"}
    else {}
  }

  /** The runtimes either side's manifests require. */
  function RequiredRuntimes(ma: seq<string>, mb: seq<string>): set<string> {
    (set i, rt | 0 <= i < |ma| && rt in ProjectRuntimes(ma[i]) :: rt)
        + (set i, rt | 0 <= i < |mb| && rt in ProjectRuntimes(mb[i]) :: rt)
  }

  /** The map-filling loops over both manifest sets. */
  method CollectRequired(ma: seq<string>, mb: seq<string>) returns (required: set<string>)
    ensures required == RequiredRuntimes(ma, mb)
  {
    hide ProjectRuntimes;
    required := {};
    for i := 0 to |ma|
      invariant required == set k, rt | 0 <= k < i && rt in ProjectRuntimes(ma[k]) :: rt
    {
      required := required + ProjectRuntimes(ma[i]);
    }
    for i := 0 to |mb|
      invariant required == (set k, rt | 0 <= k < |ma| && rt in ProjectRuntimes(ma[k]) :: rt)
                            + (set k, rt | 0 <= k < i && rt in ProjectRuntimes(mb[k]) :: rt)
    {
      required := required + ProjectRuntimes(mb[i]);
    }
  }

  function MissingOn(name: string, who: string): string { name + " is required by this project but missing on " + who }

  function InContext(e: Entry, required: set<string>, nameA: string, nameB: string): Entry {
    if e.category == "Runtime" && e.name in required && (e.a == MISSING || e.b == MISSING)
    then e.(severity := Critical, blocker := MissingOn(e.name, if e.a == MISSING then nameA else nameB))
    else e
  }

  function AllInContext(es: seq<Entry>, required: set<string>, nameA: string, nameB: string): (r: seq<Entry>)
    ensures |r| == |es| && forall i | 0 <= i < |es| :: r[i] == InContext(es[i], required, nameA, nameB)
  {
    seq(|es|, i requires 0 <= i < |es| => InContext(es[i], required, nameA, nameB))
  }

  function EntriesOf(es: seq<Entry>, s: Severity): seq<Entry> {
    if es == [] then []
    else EntriesOf(es[..|es| - 1], s) + if es[|es| - 1].severity == s then [es[|es| - 1]] else []
  }

  predicate HasDifferences(es: seq<Entry>) { exists i | 0 <= i < |es| :: es[i].severity != Info }

  /** The full comparison both aggregators use: entries, then the project's context. */
  ghost function FullDiff(a: Snapshot, b: Snapshot, nameA: string, nameB: string): seq<Entry> {
    AllInContext(Entries(a, b), RequiredRuntimes(a.manifests, b.manifests), nameA, nameB)
  }

  class DiffResult {
    var nameA: string
    var nameB: string
    var entries: seq<Entry>

    constructor (a: Snapshot, b: Snapshot, na: string, nb: string)
      ensures nameA == na && nameB == nb && entries == Entries(a, b)
    {
      nameA, nameB := na, nb;
      entries := [];
      new;
      hide DiffEnvironment, DiffRuntimes, RuntimeInfos, DiffPorts, EnvEntry;
      entries := entries + DiffEnvironment(a, b);
      assert entries == DiffEnvironment(a, b);
      var runtimes := CompareRuntimes(RUNTIME_NAMES, RuntimeInfos(a.runtimes), RuntimeInfos(b.runtimes));
      entries := entries + runtimes;
      var ports := ComparePorts(a.ports, b.ports);
      entries := entries + ports;
      var keys := CompareEnvFiles(a.missingKeys, b.missingKeys);
      entries := entries + keys;
    }

    /** Upgrades missing required runtimes, entry by entry in place. */
    method ApplyProjectContext(a: Snapshot, b: Snapshot)
      modifies this`entries
      ensures entries == AllInContext(old(entries), RequiredRuntimes(a.manifests, b.manifests), nameA, nameB)
    {
      var required := CollectRequired(a.manifests, b.manifests);
      hide RequiredRuntimes;
      for i := 0 to |entries|
        invariant |entries| == |old(entries)|
        invariant forall k | 0 <= k < i :: entries[k] == InContext(old(entries)[k], required, nameA, nameB)
        invariant forall k | i <= k < |entries| :: entries[k] == old(entries)[k]
      {
        var e := entries[i];
        if e.category != "Runtime" || e.name !in required {
          continue;
        }
        if e.a == MISSING || e.b == MISSING {
          var who := nameB;
          if e.a == MISSING {
            who := nameA;
          }
          entries := entries[i := e.(severity := Critical, blocker := MissingOn(e.name, who))];
        }
      }
    }

    method Blockers() returns (out: seq<string>)
      ensures out == Reports.Dedup(BlockerTexts(entries))
    {
      out := Reports.CollectBlockers(BlockerTexts(entries));
    }

    method BySeverity(s: Severity) returns (out: seq<Entry>)
      ensures out == EntriesOf(entries, s)
    {
      out := [];
      for i := 0 to |entries|
        invariant out == EntriesOf(entries[..i], s)
      {
        assert entries[..i + 1][..i] == entries[..i];
        if entries[i].severity == s {
          out := out + [entries[i]];
        }
      }
      assert entries[..|entries|] == entries;
    }

    method AnyDifference() returns (r: bool)
      ensures r == HasDifferences(entries)
    {
      for i := 0 to |entries|
        invariant forall k | 0 <= k < i :: entries[k].severity == Info
      {
        if entries[i].severity != Info {
          return true;
        }
      }
      return false;
    }
  }

  function BlockerTexts(es: seq<Entry>): (r: seq<string>)
    ensures |r| == |es| && forall i | 0 <= i < |es| :: r[i] == es[i].blocker
  {
    seq(|es|, i requires 0 <= i < |es| => es[i].blocker)
  }

  // ------------------------------------------------------- mirror symmetry

  /**
   The blocker of the same finding told from the other machine: a missing runtime still names
   the machine that lacks it, a mismatch has its versions exchanged, and absent keys change sides.
   */
  function MirrorBlocker(e: Entry, required: set<string>): string {
    if e.category == "Runtime" then
      if e.name in required && (e.a == MISSING || e.b == MISSING) then e.blocker
      else if e.blocker == "" then ""
      else MismatchText(e.name, e.b, e.a)
    else if e.category == "Env" then
      if e.b == "present" then ABSENT_ON_B + TrimPrefix(e.a, LACKS) else ABSENT_ON_A + TrimPrefix(e.b, LACKS)
    else e.blocker
  }

  /** The same finding seen from the other machine. */
  function MirrorEntry(e: Entry, required: set<string>): Entry {
    Entry(e.category, e.name, e.b, e.a, e.severity, MirrorBlocker(e, required))
  }

  function MirrorAll(es: seq<Entry>, required: set<string>): (r: seq<Entry>)
    ensures |r| == |es| && forall i | 0 <= i < |es| :: r[i] == MirrorEntry(es[i], required)
  {
    seq(|es|, i requires 0 <= i < |es| => MirrorEntry(es[i], required))
  }

  /** One part of the comparison, mirrored, is that part of the comparison the other way round. */
  ghost predicate PartMirrors(es: seq<Entry>, ms: seq<Entry>, required: set<string>, nameA: string, nameB: string) {
    MirrorAll(AllInContext(es, required, nameA, nameB), required) == AllInContext(ms, required, nameB, nameA)
  }

  lemma PartsMirror(es: seq<Entry>, ms: seq<Entry>, es2: seq<Entry>, ms2: seq<Entry>, required: set<string>,
      nameA: string, nameB: string)
    requires |es| == |ms|
    ensures PartMirrors(es + es2, ms + ms2, required, nameA, nameB) <==>
              PartMirrors(es, ms, required, nameA, nameB) && PartMirrors(es2, ms2, required, nameA, nameB)
  {
    hide MirrorEntry, InContext;
    ContextConcat(es, es2, required, nameA, nameB);
    ContextConcat(ms, ms2, required, nameB, nameA);
    var x := MirrorAll(AllInContext(es, required, nameA, nameB), required);
    var x2 := MirrorAll(AllInContext(es2, required, nameA, nameB), required);
    var y, y2 := AllInContext(ms, required, nameB, nameA), AllInContext(ms2, required, nameB, nameA);
    assert MirrorAll(AllInContext(es + es2, required, nameA, nameB), required) == x + x2;
    SplitEqual(x, y, x2, y2);
  }

  lemma SplitEqual(x: seq<Entry>, y: seq<Entry>, x2: seq<Entry>, y2: seq<Entry>)
    requires |x| == |y|
    ensures x + x2 == y + y2 <==> x == y && x2 == y2
  {
    assert (x + x2)[..|x|] == x && (x + x2)[|x|..] == x2;
    assert (y + y2)[..|y|] == y && (y + y2)[|y|..] == y2;
  }

  lemma ContextConcat(x: seq<Entry>, y: seq<Entry>, required: set<string>, nameA: string, nameB: string)
    ensures AllInContext(x + y, required, nameA, nameB)
         == AllInContext(x, required, nameA, nameB) + AllInContext(y, required, nameA, nameB)
  {
    hide InContext;
  }

  /** Entries that are no runtimes: context leaves them alone, so they mirror iff they did before. */
  lemma PlainPartMirrors(es: seq<Entry>, ms: seq<Entry>, required: set<string>, nameA: string, nameB: string)
    requires forall i | 0 <= i < |es| :: es[i].category != "Runtime"
    requires forall i | 0 <= i < |ms| :: ms[i].category != "Runtime"
    ensures PartMirrors(es, ms, required, nameA, nameB) <==> MirrorAll(es, required) == ms
  {
    hide MirrorEntry;
    assert AllInContext(es, required, nameA, nameB) == es;
    assert AllInContext(ms, required, nameB, nameA) == ms;
  }

  lemma FieldMirrors(name: string, a: string, b: string, s: Severity, required: set<string>)
    ensures MirrorAll(FieldEntry(name, a, b, s), required) == FieldEntry(name, b, a, s)
  {
  }

  lemma EnvironmentMirrors(a: Snapshot, b: Snapshot, required: set<string>)
    ensures MirrorAll(DiffEnvironment(a, b), required) == DiffEnvironment(b, a)
  {
    FieldMirrors("OS", a.os, b.os, Info, required);
    FieldMirrors("Arch", a.arch, b.arch, Info, required);
    FieldMirrors("git", a.gitVersion, b.gitVersion, Difference, required);
    hide FieldEntry, MirrorEntry;
    var x, y, z := FieldEntry("OS", a.os, b.os, Info), FieldEntry("Arch", a.arch, b.arch, Info),
                   FieldEntry("git", a.gitVersion, b.gitVersion, Difference);
    MirrorConcat(x, y, required);
    MirrorConcat(x + y, z, required);
  }

  lemma MirrorConcat(x: seq<Entry>, y: seq<Entry>, required: set<string>)
    ensures MirrorAll(x + y, required) == MirrorAll(x, required) + MirrorAll(y, required)
  {
    hide MirrorEntry;
  }

  /** A required runtime absent on one side and present as the text "missing" on the other. */
  predicate Ambiguous(name: string, a: VersionInfo, b: VersionInfo, required: set<string>) {
    name in required && a.present != b.present && (if a.present then a.version else b.version) == MISSING
  }

  lemma MissingOnNamesOne(name: string, x: string, y: string)
    ensures MissingOn(name, x) == MissingOn(name, y) <==> x == y
  {
    var p := name + " is required by this project but missing on ";
    assert MissingOn(name, x) == p + x && MissingOn(name, y) == p + y;
    assert (p + x)[|p|..] == x && (p + y)[|p|..] == y;
  }

  /** One entry: only an entry that reads "missing" on both sides can name different machines. */
  lemma ContextMirrors(e: Entry, required: set<string>, nameA: string, nameB: string)
    requires e.category == "Runtime"
    ensures MirrorEntry(InContext(e, required, nameA, nameB), required)
              == InContext(MirrorEntry(e, {}), required, nameB, nameA) <==>
              nameA == nameB || !(e.name in required && e.a == MISSING && e.b == MISSING)
  {
    MissingOnNamesOne(e.name, nameA, nameB);
    hide MissingOn, MismatchText;
  }

  lemma RuntimeMirrors(name: string, a: VersionInfo, b: VersionInfo)
    ensures MirrorAll(CompareRuntime(name, a, b), {}) == CompareRuntime(name, b, a)
  {
    hide MismatchText;
    assert Versions.MajorDiffers(a.version, b.version) == Versions.MajorDiffers(b.version, a.version);
    MismatchTextNotEmpty(name, a.version, b.version);
    hide Versions.MajorDiffers;
  }

  lemma MismatchTextNotEmpty(name: string, a: string, b: string)
    ensures MismatchText(name, a, b) != ""
  {
  }

  lemma OneRuntimeMirrors(name: string, a: VersionInfo, b: VersionInfo, required: set<string>,
      nameA: string, nameB: string)
    ensures |CompareRuntime(name, a, b)| == |CompareRuntime(name, b, a)|
    ensures PartMirrors(CompareRuntime(name, a, b), CompareRuntime(name, b, a), required, nameA, nameB) <==>
              nameA == nameB || !Ambiguous(name, a, b, required)
  {
    RuntimeMirrors(name, a, b);
    hide MirrorEntry, InContext, Versions.MajorDiffers, MismatchText;
    var es, ms := CompareRuntime(name, a, b), CompareRuntime(name, b, a);
    if es != [] {
      assert es == [es[0]] && ms == [MirrorEntry(es[0], {})];
      ContextMirrors(es[0], required, nameA, nameB);
      assert PartMirrors(es, ms, required, nameA, nameB) <==>
             MirrorEntry(InContext(es[0], required, nameA, nameB), required)
                 == InContext(ms[0], required, nameB, nameA) by {
        var x, y := MirrorAll(AllInContext(es, required, nameA, nameB), required),
            AllInContext(ms, required, nameB, nameA);
        assert x == y <==> x[0] == y[0];
      }
    }
  }

  /** No required runtime is absent on one side and reads "missing" on the other. */
  ghost predicate NoneAmbiguous(names: seq<string>, a: seq<VersionInfo>, b: seq<VersionInfo>, required: set<string>)
    requires |names| == |a| == |b|
  {
    forall i | 0 <= i < |names| :: !Ambiguous(names[i], a[i], b[i], required)
  }

  lemma NoneAmbiguousLast(names: seq<string>, a: seq<VersionInfo>, b: seq<VersionInfo>, required: set<string>, n: nat)
    requires |names| == |a| == |b| == n + 1
    ensures NoneAmbiguous(names, a, b, required) <==>
              NoneAmbiguous(names[..n], a[..n], b[..n], required) && !Ambiguous(names[n], a[n], b[n], required)
  {
    hide Ambiguous;
    if NoneAmbiguous(names[..n], a[..n], b[..n], required) {
      assert forall i | 0 <= i < n :: names[i] == names[..n][i] && a[i] == a[..n][i] && b[i] == b[..n][i];
    }
  }

  lemma LastRuntime(names: seq<string>, a: seq<VersionInfo>, b: seq<VersionInfo>, n: nat)
    requires |names| == |a| == |b| == n + 1
    ensures DiffRuntimes(names, a, b) == DiffRuntimes(names[..n], a[..n], b[..n]) + CompareRuntime(names[n], a[n], b[n])
  {
    hide CompareRuntime;
  }

  lemma NothingMirrors(required: set<string>, nameA: string, nameB: string)
    ensures DiffRuntimes([], [], []) == []
    ensures PartMirrors([], [], required, nameA, nameB) && NoneAmbiguous([], [], [], required)
  {
  }

  lemma {:induction false} RuntimesMirror(names: seq<string>, a: seq<VersionInfo>, b: seq<VersionInfo>,
      required: set<string>, nameA: string, nameB: string)
    requires |names| == |a| == |b|
    ensures |DiffRuntimes(names, a, b)| == |DiffRuntimes(names, b, a)|
    ensures PartMirrors(DiffRuntimes(names, a, b), DiffRuntimes(names, b, a), required, nameA, nameB) <==>
              nameA == nameB || NoneAmbiguous(names, a, b, required)
  {
    hide *;
    if names == [] {
      NothingMirrors(required, nameA, nameB);
      assert a == [] && b == [];
    } else {
      var n := |names| - 1;
      RuntimesMirror(names[..n], a[..n], b[..n], required, nameA, nameB);
      NoneAmbiguousLast(names, a, b, required, n);
      LastRuntime(names, a, b, n);
      LastRuntime(names, b, a, n);
      OneRuntimeMirrors(names[n], a[n], b[n], required, nameA, nameB);
      PartsMirror(DiffRuntimes(names[..n], a[..n], b[..n]), DiffRuntimes(names[..n], b[..n], a[..n]),
                  CompareRuntime(names[n], a[n], b[n]), CompareRuntime(names[n], b[n], a[n]), required, nameA, nameB);
    }
  }

  /** The two snapshots name the service of a port they disagree on alike, or one does not name it. */
  ghost predicate LabelAgrees(p: int, a: map<int, PortInfo>, b: map<int, PortInfo>) {
    p in a && p in b && a[p].listening != b[p].listening ==>
      a[p].service == b[p].service || a[p].service == "" || b[p].service == ""
  }

  lemma PortNameInjective(p: int, l: string, m: string)
    requires PortName(p, l) == PortName(p, m)
    ensures l == m
  {
    var pre := FormatInt(p) + " (";
    Between(pre, l, ")");
    Between(pre, m, ")");
    assert PortName(p, l) == pre + l + ")" && PortName(p, m) == pre + m + ")";
  }

  lemma Between(pre: string, s: string, post: string)
    ensures (pre + s + post)[|pre|..|pre + s + post| - |post|] == s
  {
  }

  lemma PortMirrors(p: int, a: map<int, PortInfo>, b: map<int, PortInfo>, required: set<string>)
    ensures |PortEntry(p, a, b)| == |PortEntry(p, b, a)|
    ensures MirrorAll(PortEntry(p, a, b), required) == PortEntry(p, b, a) <==> LabelAgrees(p, a, b)
  {
    if p in a && p in b && a[p].listening != b[p].listening {
      hide PortName, ListeningLabel;
      var l, m := PortLabel(a[p], b[p]), PortLabel(b[p], a[p]);
      if PortName(p, l) == PortName(p, m) {
        PortNameInjective(p, l, m);
      }
      var x, y := MirrorAll(PortEntry(p, a, b), required), PortEntry(p, b, a);
      assert x == y <==> x[0] == y[0];
    }
  }

  lemma {:induction false} PortEntriesMirror(ports: seq<int>, a: map<int, PortInfo>, b: map<int, PortInfo>,
      required: set<string>)
    ensures |PortEntries(ports, a, b)| == |PortEntries(ports, b, a)|
    ensures MirrorAll(PortEntries(ports, a, b), required) == PortEntries(ports, b, a) <==>
              forall i | 0 <= i < |ports| :: LabelAgrees(ports[i], a, b)
  {
    hide PortEntry, LabelAgrees, MirrorEntry;
    if ports != [] {
      var front, p := ports[..|ports| - 1], ports[|ports| - 1];
      PortEntriesMirror(front, a, b, required);
      PortMirrors(p, a, b, required);
      MirrorConcat(PortEntries(front, a, b), PortEntry(p, a, b), required);
      hide MirrorAll;
      SplitEqual(MirrorAll(PortEntries(front, a, b), required), PortEntries(front, b, a),
                 MirrorAll(PortEntry(p, a, b), required), PortEntry(p, b, a));
      assert forall i | 0 <= i < |ports| :: ports[i] == if i < |front| then front[i] else p;
    }
  }

  lemma PortsMirror(a: map<int, PortInfo>, b: map<int, PortInfo>, required: set<string>)
    ensures |DiffPorts(a, b)| == |DiffPorts(b, a)|
    ensures MirrorAll(DiffPorts(a, b), required) == DiffPorts(b, a) <==> forall p :: LabelAgrees(p, a, b)
  {
    assert a.Keys + b.Keys == b.Keys + a.Keys;
    assert UnionPorts(a, b) == UnionPorts(b, a);
    var ports := UnionPorts(a, b);
    PortEntriesMirror(ports, a, b, required);
    hide PortEntries, MirrorAll;
    if forall i | 0 <= i < |ports| :: LabelAgrees(ports[i], a, b) {
      forall p
        ensures LabelAgrees(p, a, b)
      {
        if p in ports {
          var i :| 0 <= i < |ports| && ports[i] == p;
          assert LabelAgrees(ports[i], a, b);
        }
      }
    }
  }

  /** The env entries, B's findings first or A's findings first. */
  ghost function EnvFilesOtherOrder(a: seq<string>, b: seq<string>): seq<Entry> {
    EnvEntry(SideA, Subtract(a, b)) + EnvEntry(SideB, Subtract(b, a))
  }

  lemma EnvEntryMirrors(keys: seq<string>, required: set<string>)
    ensures MirrorAll(EnvEntry(SideA, keys), required) == EnvEntry(SideB, keys)
    ensures MirrorAll(EnvEntry(SideB, keys), required) == EnvEntry(SideA, keys)
  {
    if keys != [] {
      var text := Join(keys, ", ");
      hide Join;
      LacksText(text);
      assert MirrorAll(EnvEntry(SideA, keys), required) == [MirrorEntry(EnvEntry(SideA, keys)[0], required)];
      assert MirrorAll(EnvEntry(SideB, keys), required) == [MirrorEntry(EnvEntry(SideB, keys)[0], required)];
    }
  }

  lemma LacksText(text: string)
    ensures TrimPrefix(LACKS + text, LACKS) == text && LACKS + text != "present"
  {
    assert (LACKS + text)[0] == 'm' && "present"[0] == 'p';
    assert (LACKS + text)[|LACKS|..] == text;
  }

  lemma EnvFilesMirror(a: seq<string>, b: seq<string>, required: set<string>)
    ensures MirrorAll(EnvFilesOtherOrder(a, b), required) == DiffEnvFiles(b, a)
  {
    var x, y := Subtract(a, b), Subtract(b, a);
    EnvEntryMirrors(x, required);
    EnvEntryMirrors(y, required);
    hide EnvEntry, Subtract, MirrorEntry;
    MirrorConcat(EnvEntry(SideA, x), EnvEntry(SideB, y), required);
  }

  /** The comparison of (a, b) with its two env entries exchanged. */
  ghost function EntriesEnvExchanged(a: Snapshot, b: Snapshot): seq<Entry> {
    DiffEnvironment(a, b)
    + DiffRuntimes(RUNTIME_NAMES, RuntimeInfos(a.runtimes), RuntimeInfos(b.runtimes))
    + DiffPorts(a.ports, b.ports)
    + EnvFilesOtherOrder(a.missingKeys, b.missingKeys)
  }

  lemma NoRuntimesBesides(a: Snapshot, b: Snapshot)
    ensures forall i | 0 <= i < |DiffEnvironment(a, b)| :: DiffEnvironment(a, b)[i].category != "Runtime"
    ensures forall i | 0 <= i < |DiffPorts(a.ports, b.ports)| :: DiffPorts(a.ports, b.ports)[i].category != "Runtime"
    ensures var es := DiffEnvFiles(a.missingKeys, b.missingKeys);
              forall i | 0 <= i < |es| :: es[i].category != "Runtime"
    ensures var es := EnvFilesOtherOrder(a.missingKeys, b.missingKeys);
              forall i | 0 <= i < |es| :: es[i].category != "Runtime"
  {
    hide Subtract, Join, UnionPorts;
    PortEntriesQuiet(UnionPorts(a.ports, b.ports), a.ports, b.ports);
  }

  /** Port entries block nothing and are no runtimes. */
  lemma {:induction false} PortEntriesQuiet(ports: seq<int>, a: map<int, PortInfo>, b: map<int, PortInfo>)
    ensures forall i | 0 <= i < |PortEntries(ports, a, b)| ::
              PortEntries(ports, a, b)[i].category == "Port" && PortEntries(ports, a, b)[i].blocker == ""
  {
    if ports != [] { PortEntriesQuiet(ports[..|ports| - 1], a, b); }
  }

  /** When the comparison does not depend on which machine comes first. */
  ghost predicate Mirrorable(a: Snapshot, b: Snapshot, nameA: string, nameB: string) {
    && (forall p :: LabelAgrees(p, a.ports, b.ports))
    && (nameA == nameB ||
        NoneAmbiguous(RUNTIME_NAMES, RuntimeInfos(a.runtimes), RuntimeInfos(b.runtimes),
            RequiredRuntimes(a.manifests, b.manifests)))
  }

  /** The comparison (b, a) is that of (a, b), mirrored, with the two env entries exchanged. */
  ghost predicate Mirrors(a: Snapshot, b: Snapshot, nameA: string, nameB: string) {
    var required := RequiredRuntimes(a.manifests, b.manifests);
    MirrorAll(AllInContext(EntriesEnvExchanged(a, b), required, nameA, nameB), required)
    == FullDiff(b, a, nameB, nameA)
  }

  /**
   Swapping the machines, their names included, yields the very entries with sides and texts
   exchanged and the two env entries in the other order, exactly when the services of every
   port they disagree on agree, and no required runtime reads "missing" on both sides.
   */
  lemma DiffMirrorsExactly(a: Snapshot, b: Snapshot, nameA: string, nameB: string)
    ensures Mirrors(a, b, nameA, nameB) <==> Mirrorable(a, b, nameA, nameB)
  {
    hide DiffEnvironment, DiffRuntimes, DiffPorts, DiffEnvFiles, EnvFilesOtherOrder, RuntimeInfos,
        LabelAgrees, NoneAmbiguous,
      AllInContext, MirrorAll, RequiredRuntimes;
    var req := RequiredRuntimes(a.manifests, b.manifests);
    RequiredEitherWay(a.manifests, b.manifests);
    var ra, rb := RuntimeInfos(a.runtimes), RuntimeInfos(b.runtimes);
    var e1, m1 := DiffEnvironment(a, b), DiffEnvironment(b, a);
    var e2, m2 := DiffRuntimes(RUNTIME_NAMES, ra, rb), DiffRuntimes(RUNTIME_NAMES, rb, ra);
    var e3, m3 := DiffPorts(a.ports, b.ports), DiffPorts(b.ports, a.ports);
    var e4, m4 := EnvFilesOtherOrder(a.missingKeys, b.missingKeys), DiffEnvFiles(b.missingKeys, a.missingKeys);
    NoRuntimesBesides(a, b);
    NoRuntimesBesides(b, a);
    EnvironmentMirrors(a, b, req);
    PlainPartMirrors(e1, m1, req, nameA, nameB);
    RuntimesMirror(RUNTIME_NAMES, ra, rb, req, nameA, nameB);
    PortsMirror(a.ports, b.ports, req);
    PlainPartMirrors(e3, m3, req, nameA, nameB);
    EnvFilesMirror(a.missingKeys, b.missingKeys, req);
    PlainPartMirrors(e4, m4, req, nameA, nameB);
    PartsMirror(e1, m1, e2, m2, req, nameA, nameB);
    PartsMirror(e1 + e2, m1 + m2, e3, m3, req, nameA, nameB);
    PartsMirror(e1 + e2 + e3, m1 + m2 + m3, e4, m4, req, nameA, nameB);
  }

  /** The entry a runtime contributes stands in the full comparison, in context. */
  lemma RuntimeStandsInDiff(a: Snapshot, b: Snapshot, nameA: string, nameB: string, i: nat, e: Entry)
    requires i < |RUNTIME_NAMES|
              && e in CompareRuntime(RUNTIME_NAMES[i], RuntimeInfos(a.runtimes)[i], RuntimeInfos(b.runtimes)[i])
    ensures InContext(e, RequiredRuntimes(a.manifests, b.manifests), nameA, nameB) in FullDiff(a, b, nameA, nameB)
  {
    hide CompareRuntime, RuntimeInfos, DiffEnvironment, DiffPorts, DiffEnvFiles, RequiredRuntimes,
        InContext, DiffRuntimes;
    RuntimeStandsAt(RUNTIME_NAMES, RuntimeInfos(a.runtimes), RuntimeInfos(b.runtimes), i, e);
    var es := Entries(a, b);
    assert e in es;
    var k :| 0 <= k < |es| && es[k] == e;
    assert FullDiff(a, b, nameA, nameB)[k] == InContext(e, RequiredRuntimes(a.manifests, b.manifests), nameA, nameB);
  }

  lemma {:induction false} RuntimeStandsAt(names: seq<string>, a: seq<VersionInfo>, b: seq<VersionInfo>,
      i: nat, e: Entry)
    requires |names| == |a| == |b| && i < |names| && e in CompareRuntime(names[i], a[i], b[i])
    ensures e in DiffRuntimes(names, a, b)
  {
    hide CompareRuntime;
    var n := |names| - 1;
    LastRuntime(names, a, b, n);
    if i < n { RuntimeStandsAt(names[..n], a[..n], b[..n], i, e); }
  }

  lemma RequiredEitherWay(ma: seq<string>, mb: seq<string>)
    ensures RequiredRuntimes(mb, ma) == RequiredRuntimes(ma, mb)
  {
    hide ProjectRuntimes;
  }

  // ------------------------------------------------- no drift, exactly

  ghost predicate SameRuntime(a: VersionInfo, b: VersionInfo) {
    a.present == b.present && (a.present ==> a.version == b.version)
  }

  ghost predicate SamePort(p: int, a: map<int, PortInfo>, b: map<int, PortInfo>) {
    p in a && p in b ==> a[p].listening == b[p].listening
  }

  /** What two machines must share for a clean verdict. */
  ghost predicate NoDrift(a: Snapshot, b: Snapshot) {
    && a.gitVersion == b.gitVersion
    && (forall i | 0 <= i < |RUNTIME_NAMES| :: SameRuntime(RuntimeInfos(a.runtimes)[i], RuntimeInfos(b.runtimes)[i]))
    && (forall p :: SamePort(p, a.ports, b.ports))
    && (forall k :: k in a.missingKeys <==> k in b.missingKeys)
  }

  lemma DifferencesConcat(x: seq<Entry>, y: seq<Entry>)
    ensures HasDifferences(x + y) <==> HasDifferences(x) || HasDifferences(y)
  {
    if HasDifferences(x) {
      var i :| 0 <= i < |x| && x[i].severity != Info;
      assert (x + y)[i].severity != Info;
    }
    if HasDifferences(y) {
      var i :| 0 <= i < |y| && y[i].severity != Info;
      assert (x + y)[|x| + i].severity != Info;
    }
  }

  lemma EnvironmentDifferences(a: Snapshot, b: Snapshot)
    ensures HasDifferences(DiffEnvironment(a, b)) <==> a.gitVersion != b.gitVersion
  {
    var os, arch, git := FieldEntry("OS", a.os, b.os, Info), FieldEntry("Arch", a.arch, b.arch, Info),
                         FieldEntry("git", a.gitVersion, b.gitVersion, Difference);
    DifferencesConcat(os, arch);
    DifferencesConcat(os + arch, git);
    if git != [] { assert git[0].severity != Info; }
  }

  lemma {:induction false} RuntimeDifferences(names: seq<string>, a: seq<VersionInfo>, b: seq<VersionInfo>)
    requires |names| == |a| == |b|
    ensures HasDifferences(DiffRuntimes(names, a, b)) <==> exists i | 0 <= i < |names| :: !SameRuntime(a[i], b[i])
  {
    if names != [] {
      var n := |names| - 1;
      RuntimeDifferences(names[..n], a[..n], b[..n]);
      var last := CompareRuntime(names[n], a[n], b[n]);
      DifferencesConcat(DiffRuntimes(names[..n], a[..n], b[..n]), last);
      if last != [] { assert last[0].severity != Info; }
    }
  }

  lemma {:induction false} PortDifferences(ports: seq<int>, a: map<int, PortInfo>, b: map<int, PortInfo>)
    ensures HasDifferences(PortEntries(ports, a, b)) <==> exists i | 0 <= i < |ports| :: !SamePort(ports[i], a, b)
  {
    if ports != [] {
      var n := |ports| - 1;
      PortDifferences(ports[..n], a, b);
      var last := PortEntry(ports[n], a, b);
      DifferencesConcat(PortEntries(ports[..n], a, b), last);
      if last != [] { assert last[0].severity != Info; }
    }
  }

  lemma EnvFilesDifferences(a: seq<string>, b: seq<string>)
    ensures HasDifferences(DiffEnvFiles(a, b)) <==> exists k :: (k in a) != (k in b)
  {
    var x, y := Subtract(b, a), Subtract(a, b);
    DifferencesConcat(EnvEntry(SideB, x), EnvEntry(SideA, y));
    if x != [] { assert x[0] in x && EnvEntry(SideB, x)[0].severity != Info; }
    if y != [] { assert y[0] in y && EnvEntry(SideA, y)[0].severity != Info; }
  }

  /** The verdict is clean exactly when nothing that matters differs. */
  lemma NoDriftExactly(a: Snapshot, b: Snapshot)
    ensures !HasDifferences(Entries(a, b)) <==> NoDrift(a, b)
  {
    var e1, e3, e4 := DiffEnvironment(a, b), DiffPorts(a.ports, b.ports), DiffEnvFiles(a.missingKeys, b.missingKeys);
    var e2 := DiffRuntimes(RUNTIME_NAMES, RuntimeInfos(a.runtimes), RuntimeInfos(b.runtimes));
    DifferencesConcat(e1, e2);
    DifferencesConcat(e1 + e2, e3);
    DifferencesConcat(e1 + e2 + e3, e4);
    EnvironmentDifferences(a, b);
    RuntimeDifferences(RUNTIME_NAMES, RuntimeInfos(a.runtimes), RuntimeInfos(b.runtimes));
    PortsDifferences(a.ports, b.ports);
    EnvFilesDifferences(a.missingKeys, b.missingKeys);
  }

  lemma PortsDifferences(a: map<int, PortInfo>, b: map<int, PortInfo>)
    ensures HasDifferences(DiffPorts(a, b)) <==> exists p :: !SamePort(p, a, b)
  {
    var ports := UnionPorts(a, b);
    PortDifferences(ports, a, b);
    if p :| !SamePort(p, a, b) {
      assert p in ports;
      var i :| 0 <= i < |ports| && ports[i] == p;
      assert !SamePort(ports[i], a, b);
    }
  }

  /** Context is idempotent, only ever raises a severity, and never changes the verdict. */
  lemma ContextIsBenign(es: seq<Entry>, required: set<string>, nameA: string, nameB: string)
    ensures var once := AllInContext(es, required, nameA, nameB);
      && AllInContext(once, required, nameA, nameB) == once
      && (forall i | 0 <= i < |es| :: once[i].severity == es[i].severity || once[i].severity == Critical)
      && ((forall i | 0 <= i < |es| :: es[i].category == "Runtime" ==> es[i].severity != Info) ==>
            (HasDifferences(once) <==> HasDifferences(es)))
  {
    var once := AllInContext(es, required, nameA, nameB);
    if HasDifferences(es) {
      var i :| 0 <= i < |es| && es[i].severity != Info;
      assert once[i].severity != Info;
    }
  }

  lemma {:induction false} RuntimeEntriesMatter(names: seq<string>, a: seq<VersionInfo>, b: seq<VersionInfo>)
    requires |names| == |a| == |b|
    ensures forall i | 0 <= i < |DiffRuntimes(names, a, b)| :: DiffRuntimes(names, a, b)[i].severity != Info
  {
    if names != [] {
      var n := |names| - 1;
      RuntimeEntriesMatter(names[..n], a[..n], b[..n]);
    }
  }

  lemma RuntimesNotInfo(a: Snapshot, b: Snapshot)
    ensures forall i | 0 <= i < |Entries(a, b)| ::
              Entries(a, b)[i].category == "Runtime" ==> Entries(a, b)[i].severity != Info
  {
    hide DiffRuntimes, Join, UnionPorts, PortEntries, RequiredRuntimes, RuntimeInfos, Subtract, OrMissing;
    var e1, e3, e4 := DiffEnvironment(a, b), DiffPorts(a.ports, b.ports), DiffEnvFiles(a.missingKeys, b.missingKeys);
    var e2 := DiffRuntimes(RUNTIME_NAMES, RuntimeInfos(a.runtimes), RuntimeInfos(b.runtimes));
    RuntimeEntriesMatter(RUNTIME_NAMES, RuntimeInfos(a.runtimes), RuntimeInfos(b.runtimes));
    PortEntriesQuiet(UnionPorts(a.ports, b.ports), a.ports, b.ports);
    assert forall i | 0 <= i < |e1| :: e1[i].category != "Runtime";
    assert forall i | 0 <= i < |e4| :: e4[i].category != "Runtime";
    hide *;
    var es := e1 + e2 + e3 + e4;
    assert forall i | 0 <= i < |es| :: es[i] in e1 || es[i] in e2 || es[i] in e3 || es[i] in e4;
    assert Entries(a, b) == es by { EntriesAre(a, b); }
  }

  lemma EntriesAre(a: Snapshot, b: Snapshot)
    ensures Entries(a, b) == DiffEnvironment(a, b)
              + DiffRuntimes(RUNTIME_NAMES, RuntimeInfos(a.runtimes), RuntimeInfos(b.runtimes))
                             + DiffPorts(a.ports, b.ports) + DiffEnvFiles(a.missingKeys, b.missingKeys)
  {
  }

  /** The verdict of the full comparison, context included. */
  lemma FullDiffVerdict(a: Snapshot, b: Snapshot, nameA: string, nameB: string)
    ensures !HasDifferences(FullDiff(a, b, nameA, nameB)) <==> NoDrift(a, b)
  {
    NoDriftExactly(a, b);
    RuntimesNotInfo(a, b);
    hide Entries, RequiredRuntimes, AllInContext, NoDrift, HasDifferences;
    ContextIsBenign(Entries(a, b), RequiredRuntimes(a.manifests, b.manifests), nameA, nameB);
  }

  /** Over one set of probed ports, having no drift is an equivalence. */
  lemma NoDriftIsEquivalence(a: Snapshot, b: Snapshot, c: Snapshot)
    requires a.ports.Keys == b.ports.Keys == c.ports.Keys
    ensures !HasDifferences(Entries(a, a))
    ensures HasDifferences(Entries(a, b)) == HasDifferences(Entries(b, a))
    ensures !HasDifferences(Entries(a, b)) && !HasDifferences(Entries(b, c)) ==> !HasDifferences(Entries(a, c))
  {
    NoDriftExactly(a, a);
    NoDriftExactly(a, b);
    NoDriftExactly(b, a);
    NoDriftExactly(b, c);
    NoDriftExactly(a, c);
    NoDriftTransitive(a, b, c);
  }

  lemma NoDriftTransitive(a: Snapshot, b: Snapshot, c: Snapshot)
    requires a.ports.Keys == b.ports.Keys == c.ports.Keys
    ensures NoDrift(a, a) && (NoDrift(a, b) <==> NoDrift(b, a))
    ensures NoDrift(a, b) && NoDrift(b, c) ==> NoDrift(a, c)
  {
    if NoDrift(a, b) && NoDrift(b, c) {
      forall p
        ensures SamePort(p, a.ports, c.ports)
      {
        assert SamePort(p, a.ports, b.ports) && SamePort(p, b.ports, c.ports);
        assert p in a.ports.Keys <==> p in b.ports.Keys;
        assert p in b.ports.Keys <==> p in c.ports.Keys;
      }
      forall i | 0 <= i < |RUNTIME_NAMES|
        ensures SameRuntime(RuntimeInfos(a.runtimes)[i], RuntimeInfos(c.runtimes)[i])
      {
        assert SameRuntime(RuntimeInfos(a.runtimes)[i], RuntimeInfos(b.runtimes)[i]);
        assert SameRuntime(RuntimeInfos(b.runtimes)[i], RuntimeInfos(c.runtimes)[i]);
      }
    }
    assert forall p :: SamePort(p, a.ports, b.ports) <==> SamePort(p, b.ports, a.ports);
    assert forall i | 0 <= i < |RUNTIME_NAMES| ::
        SameRuntime(RuntimeInfos(a.runtimes)[i], RuntimeInfos(b.runtimes)[i]) <==>
            SameRuntime(RuntimeInfos(b.runtimes)[i], RuntimeInfos(a.runtimes)[i]);
  }
}
