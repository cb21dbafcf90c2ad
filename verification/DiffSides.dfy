/** What the entries of a comparison say about which machine, read off the two snapshots. */
module DiffSides {
  import opened Text
  import opened Decimal
  import opened Model
  import opened Diff
  import RuntimeNames
  import Versions

  // ------------------------------------------------------------- runtimes

  /** How a runtime reads on its own machine. */
  ghost function Shown(v: VersionInfo): string { if v.present then v.version else "missing" }

  /** A manifest of the list implies the runtime. */
  ghost predicate Requires(manifests: seq<string>, name: string) {
    exists i | 0 <= i < |manifests| :: RuntimeNames.Needs(manifests[i], name)
  }

  ghost predicate Needed(a: Snapshot, b: Snapshot, name: string) {
    Requires(a.manifests, name) || Requires(b.manifests, name)
  }

  lemma NeededMeans(a: Snapshot, b: Snapshot, name: string)
    ensures name in RequiredRuntimes(a.manifests, b.manifests) <==> Needed(a, b, name)
  {
    forall manifest { RuntimeNames.ManifestsNeed(manifest, name); }
    hide ProjectRuntimes, RuntimeNames.Needs;
  }

  ghost function SaysLacking(name: string, machine: string): string {
    name + " is required by this project but missing on " + machine
  }

  ghost function SaysMajors(name: string, a: string, b: string): string {
    name + " major version mismatch (" + a + " vs " + b + ")"
  }

  ghost predicate RuntimesDiffer(a: VersionInfo, b: VersionInfo) {
    a.present != b.present || (a.present && a.version != b.version)
  }

  /** A needed runtime that reads "missing" on a side is critical, and blames the first side that reads so. */
  ghost predicate RuntimeTold(e: Entry, name: string, a: VersionInfo, b: VersionInfo, needed: bool,
      nameA: string, nameB: string)
  {
    && e.category == "Runtime" && e.name == name && RuntimesDiffer(a, b)
    && e.a == Shown(a) && e.b == Shown(b)
    && (if needed && Shown(a) == "missing" then e.severity == Critical && e.blocker == SaysLacking(name, nameA)
        else if needed && Shown(b) == "missing" then e.severity == Critical && e.blocker == SaysLacking(name, nameB)
        else if a.present && b.present && Versions.MajorDiffers(a.version, b.version) then
          e.severity == Critical && e.blocker == SaysMajors(name, a.version, b.version)
        else e.severity == Difference && e.blocker == "")
  }

  lemma CompareTells(name: string, a: VersionInfo, b: VersionInfo, required: set<string>,
      nameA: string, nameB: string, e: Entry)
    ensures e in AllInContext(CompareRuntime(name, a, b), required, nameA, nameB) <==>
              RuntimeTold(e, name, a, b, name in required, nameA, nameB)
  {
    hide Versions.MajorDiffers;
    var es := CompareRuntime(name, a, b);
    assert MissingOn(name, nameA) == SaysLacking(name, nameA) && MissingOn(name, nameB) == SaysLacking(name, nameB);
    assert MismatchText(name, a.version, b.version) == SaysMajors(name, a.version, b.version);
    hide MissingOn, SaysLacking, MismatchText, SaysMajors;
    if es != [] {
      assert es == [es[0]];
      assert AllInContext(es, required, nameA, nameB) == [InContext(es[0], required, nameA, nameB)];
    }
  }

  ghost predicate SomeRuntimeTold(e: Entry, names: seq<string>, a: seq<VersionInfo>, b: seq<VersionInfo>,
      required: set<string>, nameA: string, nameB: string)
    requires |names| == |a| == |b|
  {
    exists i | 0 <= i < |names| :: RuntimeTold(e, names[i], a[i], b[i], names[i] in required, nameA, nameB)
  }

  lemma {:induction false} RuntimesTell(names: seq<string>, a: seq<VersionInfo>, b: seq<VersionInfo>,
      required: set<string>, nameA: string, nameB: string, e: Entry)
    requires |names| == |a| == |b|
    ensures e in AllInContext(DiffRuntimes(names, a, b), required, nameA, nameB) <==>
              SomeRuntimeTold(e, names, a, b, required, nameA, nameB)
  {
    hide CompareRuntime, RuntimeTold, InContext;
    if names != [] {
      var n := |names| - 1;
      RuntimesTell(names[..n], a[..n], b[..n], required, nameA, nameB, e);
      CompareTells(names[n], a[n], b[n], required, nameA, nameB, e);
      LastRuntime(names, a, b, n);
      ContextConcat(DiffRuntimes(names[..n], a[..n], b[..n]), CompareRuntime(names[n], a[n], b[n]),
          required, nameA, nameB);
      SomeToldLast(e, names, a, b, required, nameA, nameB, n);
      hide DiffRuntimes, AllInContext, SomeRuntimeTold;
    }
  }

  lemma SomeToldLast(e: Entry, names: seq<string>, a: seq<VersionInfo>, b: seq<VersionInfo>,
      required: set<string>, nameA: string, nameB: string, n: nat)
    requires |names| == |a| == |b| == n + 1
    ensures SomeRuntimeTold(e, names, a, b, required, nameA, nameB) <==>
              SomeRuntimeTold(e, names[..n], a[..n], b[..n], required, nameA, nameB)
              || RuntimeTold(e, names[n], a[n], b[n], names[n] in required, nameA, nameB)
  {
    hide RuntimeTold;
    var x, y, z := names[..n], a[..n], b[..n];
    assert forall i | 0 <= i < n :: x[i] == names[i] && y[i] == a[i] && z[i] == b[i];
  }

  // ------------------------------------------------------ ports and env keys

  ghost function Running(l: bool): string { if l then "running" else "not running" }

  ghost predicate PortTold(e: Entry, p: int, a: map<int, PortInfo>, b: map<int, PortInfo>) {
    && p in a && p in b && a[p].listening != b[p].listening
    && e.category == "Port" && e.severity == Difference && e.blocker == ""
    && e.name == FormatInt(p) + " (" + (if a[p].service != "" then a[p].service else b[p].service) + ")"
    && e.a == Running(a[p].listening) && e.b == Running(b[p].listening)
  }

  lemma PortTells(p: int, a: map<int, PortInfo>, b: map<int, PortInfo>, e: Entry)
    ensures e in PortEntry(p, a, b) <==> PortTold(e, p, a, b)
  {
    hide FormatInt;
  }

  lemma {:induction false} PortsTell(ports: seq<int>, a: map<int, PortInfo>, b: map<int, PortInfo>, e: Entry)
    ensures e in PortEntries(ports, a, b) <==> exists i | 0 <= i < |ports| :: PortTold(e, ports[i], a, b)
  {
    hide PortEntry, PortTold;
    if ports != [] {
      var front, p := ports[..|ports| - 1], ports[|ports| - 1];
      PortsTell(front, a, b, e);
      PortTells(p, a, b, e);
      assert forall i | 0 <= i < |front| :: front[i] == ports[i];
    }
  }

  lemma AllPortsTell(a: map<int, PortInfo>, b: map<int, PortInfo>, e: Entry)
    ensures e in DiffPorts(a, b) <==> exists p :: PortTold(e, p, a, b)
  {
    var ports := UnionPorts(a, b);
    PortsTell(ports, a, b, e);
    PortToldIsProbed(a, b, e);
    hide PortTold, UnionPorts;
    if p :| PortTold(e, p, a, b) { assert p in ports; }
  }

  lemma PortToldIsProbed(a: map<int, PortInfo>, b: map<int, PortInfo>, e: Entry)
    ensures forall p :: PortTold(e, p, a, b) ==> p in a && p in b
  {
  }

  /** The keys one list has beyond another keep their order. */
  lemma {:induction false} SubtractInOrder(x: seq<string>, y: seq<string>, k: string, z: seq<string>)
    ensures Subtract(x + y, z) == Subtract(x, z) + Subtract(y, z)
    ensures Subtract([k], z) == if k in z then [] else [k]
  {
    assert [k][..0] == [];
    if y == [] {
      assert x + y == x;
    } else {
      var n := |y| - 1;
      assert (x + y)[..|x + y| - 1] == x + y[..n];
      SubtractInOrder(x, y[..n], k, z);
    }
  }

  /** An env entry: the side that lacks keys the other has, and exactly those keys. */
  ghost predicate EnvTold(e: Entry, a: seq<string>, b: seq<string>) {
    && e.category == "Env" && e.name == ".env keys" && e.severity == Critical
    && (|| (e.a == "present" && e.b == "missing: " + Join(Subtract(b, a), ", ") && (exists k | k in b :: k !in a)
            && e.blocker == "required environment variables absent on B: " + Join(Subtract(b, a), ", "))
        || (e.b == "present" && e.a == "missing: " + Join(Subtract(a, b), ", ") && (exists k | k in a :: k !in b)
            && e.blocker == "required environment variables absent on A: " + Join(Subtract(a, b), ", ")))
  }

  lemma EnvTells(a: seq<string>, b: seq<string>, e: Entry)
    ensures e in DiffEnvFiles(a, b) <==> EnvTold(e, a, b)
  {
    var x, y := Subtract(b, a), Subtract(a, b);
    hide Join, Subtract;
    if x != [] { assert x[0] in x; }
    if y != [] { assert y[0] in y; }
    EnvSideTells(x, e);
    EnvSideTells(y, e);
    hide EnvEntry;
  }

  lemma EnvSideTells(keys: seq<string>, e: Entry)
    ensures e in EnvEntry(SideA, keys) <==>
              keys != [] && e == Entry("Env", ".env keys", "missing: " + Join(keys, ", "), "present", Critical,
                                       "required environment variables absent on A: " + Join(keys, ", "))
    ensures e in EnvEntry(SideB, keys) <==>
              keys != [] && e == Entry("Env", ".env keys", "present", "missing: " + Join(keys, ", "), Critical,
                                       "required environment variables absent on B: " + Join(keys, ", "))
  {
    hide Join;
  }

  // ----------------------------------------------------- system and git fields

  ghost function OrGone(s: string): string { if s == "" then "missing" else s }

  /** The OS and the architecture are only noted; git versions make a difference, a blank one reads "missing". */
  ghost predicate FieldTold(e: Entry, a: Snapshot, b: Snapshot) {
    && e.category == "Environment" && e.blocker == ""
    && (|| (e.name == "OS" && a.os != b.os && e.a == a.os && e.b == b.os && e.severity == Info)
        || (e.name == "Arch" && a.arch != b.arch && e.a == a.arch && e.b == b.arch && e.severity == Info)
        || (e.name == "git" && a.gitVersion != b.gitVersion && e.severity == Difference
            && e.a == OrGone(a.gitVersion) && e.b == OrGone(b.gitVersion)))
  }

  lemma FieldEntryTells(name: string, x: string, y: string, s: Severity, e: Entry)
    ensures e in FieldEntry(name, x, y, s) <==>
              x != y &&
              e == Entry("Environment", name, if s == Info then x else OrGone(x),
                if s == Info then y else OrGone(y), s, "")
  {
  }

  lemma FieldsTell(a: Snapshot, b: Snapshot, e: Entry)
    ensures e in DiffEnvironment(a, b) <==> FieldTold(e, a, b)
  {
    FieldEntryTells("OS", a.os, b.os, Info, e);
    FieldEntryTells("Arch", a.arch, b.arch, Info, e);
    FieldEntryTells("git", a.gitVersion, b.gitVersion, Difference, e);
    hide FieldEntry;
  }

  // ------------------------------------------------------ the full comparison

  /** The finding on the i-th runtime, which a manifest of either machine may make a needed one. */
  ghost predicate RuntimeToldAt(e: Entry, i: nat, a: Snapshot, b: Snapshot, nameA: string, nameB: string)
    requires i < |RUNTIME_NAMES|
  {
    RuntimeTold(e, RUNTIME_NAMES[i], RuntimeInfos(a.runtimes)[i], RuntimeInfos(b.runtimes)[i],
                Needed(a, b, RUNTIME_NAMES[i]), nameA, nameB)
  }

  lemma SomeRuntimeNeeded(e: Entry, a: Snapshot, b: Snapshot, nameA: string, nameB: string)
    ensures SomeRuntimeTold(e, RUNTIME_NAMES, RuntimeInfos(a.runtimes), RuntimeInfos(b.runtimes),
                            RequiredRuntimes(a.manifests, b.manifests), nameA, nameB) <==>
              exists i | 0 <= i < |RUNTIME_NAMES| :: RuntimeToldAt(e, i, a, b, nameA, nameB)
  {
    hide RuntimeTold, Needed, RequiredRuntimes, RuntimeInfos, RUNTIME_NAMES;
    forall i | 0 <= i < |RUNTIME_NAMES|
      ensures RUNTIME_NAMES[i] in RequiredRuntimes(a.manifests, b.manifests) <==> Needed(a, b, RUNTIME_NAMES[i])
    {
      NeededMeans(a, b, RUNTIME_NAMES[i]);
    }
    if i :| 0 <= i < |RUNTIME_NAMES| && RuntimeToldAt(e, i, a, b, nameA, nameB) {
      assert RuntimeTold(e, RUNTIME_NAMES[i], RuntimeInfos(a.runtimes)[i], RuntimeInfos(b.runtimes)[i],
                         RUNTIME_NAMES[i] in RequiredRuntimes(a.manifests, b.manifests), nameA, nameB);
    }
    if SomeRuntimeTold(e, RUNTIME_NAMES, RuntimeInfos(a.runtimes), RuntimeInfos(b.runtimes),
                       RequiredRuntimes(a.manifests, b.manifests), nameA, nameB) {
      var i :| 0 <= i < |RUNTIME_NAMES| &&
        RuntimeTold(e, RUNTIME_NAMES[i], RuntimeInfos(a.runtimes)[i], RuntimeInfos(b.runtimes)[i],
                    RUNTIME_NAMES[i] in RequiredRuntimes(a.manifests, b.manifests), nameA, nameB);
      assert RuntimeToldAt(e, i, a, b, nameA, nameB);
    }
  }

  /** One of the four kinds of finding, each with the values of the side they stand on. */
  ghost predicate Told(e: Entry, a: Snapshot, b: Snapshot, nameA: string, nameB: string) {
    || FieldTold(e, a, b)
    || (exists i | 0 <= i < |RUNTIME_NAMES| :: RuntimeToldAt(e, i, a, b, nameA, nameB))
    || (exists p :: PortTold(e, p, a.ports, b.ports))
    || EnvTold(e, a.missingKeys, b.missingKeys)
  }

  lemma QuietInContext(es: seq<Entry>, required: set<string>, nameA: string, nameB: string)
    requires forall i | 0 <= i < |es| :: es[i].category != "Runtime"
    ensures AllInContext(es, required, nameA, nameB) == es
  {
  }

  lemma FullDiffInParts(a: Snapshot, b: Snapshot, nameA: string, nameB: string)
    ensures FullDiff(a, b, nameA, nameB)
         == DiffEnvironment(a, b)
            + AllInContext(DiffRuntimes(RUNTIME_NAMES, RuntimeInfos(a.runtimes), RuntimeInfos(b.runtimes)),
                           RequiredRuntimes(a.manifests, b.manifests), nameA, nameB)
            + DiffPorts(a.ports, b.ports)
            + DiffEnvFiles(a.missingKeys, b.missingKeys)
  {
    NoRuntimesBesides(a, b);
    hide DiffEnvironment, DiffRuntimes, DiffPorts, DiffEnvFiles, EnvFilesOtherOrder, RequiredRuntimes,
        RuntimeInfos, InContext;
    var req := RequiredRuntimes(a.manifests, b.manifests);
    var e1, e2 := DiffEnvironment(a, b),
        DiffRuntimes(RUNTIME_NAMES, RuntimeInfos(a.runtimes), RuntimeInfos(b.runtimes));
    var e3, e4 := DiffPorts(a.ports, b.ports), DiffEnvFiles(a.missingKeys, b.missingKeys);
    QuietInContext(e1, req, nameA, nameB);
    QuietInContext(e3, req, nameA, nameB);
    QuietInContext(e4, req, nameA, nameB);
    hide AllInContext;
    ContextConcat(e1, e2, req, nameA, nameB);
    ContextConcat(e1 + e2, e3, req, nameA, nameB);
    ContextConcat(e1 + e2 + e3, e4, req, nameA, nameB);
  }

  /** Every entry of the comparison in its project's context, and no other. */
  lemma FullDiffTells(a: Snapshot, b: Snapshot, nameA: string, nameB: string, e: Entry)
    ensures e in FullDiff(a, b, nameA, nameB) <==> Told(e, a, b, nameA, nameB)
  {
    hide *;
    FullDiffInParts(a, b, nameA, nameB);
    FieldsTell(a, b, e);
    RuntimesTell(RUNTIME_NAMES, RuntimeInfos(a.runtimes), RuntimeInfos(b.runtimes),
                 RequiredRuntimes(a.manifests, b.manifests), nameA, nameB, e);
    SomeRuntimeNeeded(e, a, b, nameA, nameB);
    AllPortsTell(a.ports, b.ports, e);
    EnvTells(a.missingKeys, b.missingKeys, e);
    ToldIs(e, a, b, nameA, nameB);
  }

  lemma ToldIs(e: Entry, a: Snapshot, b: Snapshot, nameA: string, nameB: string)
    ensures Told(e, a, b, nameA, nameB) <==>
              || FieldTold(e, a, b)
              || (exists i | 0 <= i < |RUNTIME_NAMES| :: RuntimeToldAt(e, i, a, b, nameA, nameB))
              || (exists p :: PortTold(e, p, a.ports, b.ports))
              || EnvTold(e, a.missingKeys, b.missingKeys)
  {
    hide FieldTold, RuntimeToldAt, RUNTIME_NAMES, PortTold, EnvTold;
  }

  /**
   Who lacks a needed runtime: where exactly one machine has it and no version reads "missing",
   the comparison blames the other one, and only when a manifest needs the runtime.
   */
  lemma LackIsBlamedRightly(a: Snapshot, b: Snapshot, nameA: string, nameB: string, i: nat, e: Entry)
    requires i < |RUNTIME_NAMES|
    requires var va, vb := RuntimeInfos(a.runtimes)[i], RuntimeInfos(b.runtimes)[i];
      && va.present != vb.present
      && (if va.present then va.version else vb.version) != "missing"
    requires RuntimeToldAt(e, i, a, b, nameA, nameB)
    ensures e in FullDiff(a, b, nameA, nameB)
    ensures nameA != nameB ==>
      (e.blocker == SaysLacking(RUNTIME_NAMES[i], nameA) <==>
         Needed(a, b, RUNTIME_NAMES[i]) && !RuntimeInfos(a.runtimes)[i].present)
    ensures nameA != nameB ==>
      (e.blocker == SaysLacking(RUNTIME_NAMES[i], nameB) <==>
         Needed(a, b, RUNTIME_NAMES[i]) && !RuntimeInfos(b.runtimes)[i].present)
    ensures !Needed(a, b, RUNTIME_NAMES[i]) ==> e.blocker == ""
  {
    var name := RUNTIME_NAMES[i];
    MissingOnNamesOne(name, nameA, nameB);
    assert MissingOn(name, nameA) == SaysLacking(name, nameA) && MissingOn(name, nameB) == SaysLacking(name, nameB);
    assert |SaysLacking(name, nameA)| > 0 && |SaysLacking(name, nameB)| > 0;
    hide MissingOn, SaysLacking, RUNTIME_NAMES, RuntimeInfos, RequiredRuntimes, Needed;
    FullDiffTells(a, b, nameA, nameB, e);
  }

  // ------------------------------------------------------------ their order

  datatype Place = Place(part: int, at: int)

  predicate Earlier(x: Place, y: Place) { x.part < y.part || (x.part == y.part && x.at < y.at) }

  /** Fields, then runtimes in display order, then ports by number, then what B lacks and what A lacks. */
  ghost predicate StandsAt(e: Entry, a: Snapshot, b: Snapshot, place: Place) {
    || (place.part == 0 && e.category == "Environment"
        && (if e.name == "OS" then place.at == 0 else if e.name == "Arch" then place.at == 1 else place.at == 2))
    || (place.part == 1 && e.category == "Runtime" && 0 <= place.at < |RUNTIME_NAMES|
        && e.name == RUNTIME_NAMES[place.at])
    || (place.part == 2 && PortTold(e, place.at, a.ports, b.ports))
    || (place.part == 3 && e.category == "Env" && (if e.a == "present" then place.at == 0 else place.at == 1))
  }

  ghost predicate InOrder(es: seq<Entry>, a: Snapshot, b: Snapshot, places: seq<Place>) {
    && |places| == |es|
    && (forall i | 0 <= i < |es| :: StandsAt(es[i], a, b, places[i]))
    && forall i, j | 0 <= i < j < |es| :: Earlier(places[i], places[j])
  }

  ghost predicate AllIn(places: seq<Place>, part: int) { forall i | 0 <= i < |places| :: places[i].part == part }

  lemma JoinInOrder(x: seq<Entry>, y: seq<Entry>, a: Snapshot, b: Snapshot, p: seq<Place>, q: seq<Place>)
    requires InOrder(x, a, b, p) && InOrder(y, a, b, q)
    requires forall i, j | 0 <= i < |p| && 0 <= j < |q| :: Earlier(p[i], q[j])
    ensures InOrder(x + y, a, b, p + q)
  {
    hide StandsAt, Earlier;
  }

  lemma FieldsInOrder(a: Snapshot, b: Snapshot) returns (places: seq<Place>)
    ensures InOrder(DiffEnvironment(a, b), a, b, places) && AllIn(places, 0)
  {
    var os, arch, git := FieldEntry("OS", a.os, b.os, Info), FieldEntry("Arch", a.arch, b.arch, Info),
                         FieldEntry("git", a.gitVersion, b.gitVersion, Difference);
    var p, q, r := seq(|os|, _ => Place(0, 0)), seq(|arch|, _ => Place(0, 1)), seq(|git|, _ => Place(0, 2));
    JoinInOrder(os, arch, a, b, p, q);
    JoinInOrder(os + arch, git, a, b, p + q, r);
    places := p + q + r;
  }

  lemma {:induction false} RuntimesInOrder(n: nat, a: Snapshot, b: Snapshot, required: set<string>,
      nameA: string, nameB: string) returns (places: seq<Place>)
    requires n <= |RUNTIME_NAMES|
    ensures InOrder(AllInContext(DiffRuntimes(RUNTIME_NAMES[..n], RuntimeInfos(a.runtimes)[..n],
              RuntimeInfos(b.runtimes)[..n]),
                                 required, nameA, nameB), a, b, places)
    ensures AllIn(places, 1) && forall i | 0 <= i < |places| :: places[i].at < n
  {
    hide RUNTIME_NAMES, RuntimeInfos, CompareRuntime, InContext;
    if n == 0 {
      places := [];
    } else {
      var names, va, vb := RUNTIME_NAMES[..n], RuntimeInfos(a.runtimes)[..n], RuntimeInfos(b.runtimes)[..n];
      var before := RuntimesInOrder(n - 1, a, b, required, nameA, nameB);
      LastRuntime(names, va, vb, n - 1);
      assert names[..n - 1] == RUNTIME_NAMES[..n - 1] && va[..n - 1] == RuntimeInfos(a.runtimes)[..n - 1]
             && vb[..n - 1] == RuntimeInfos(b.runtimes)[..n - 1];
      var last := AllInContext(CompareRuntime(names[n - 1], va[n - 1], vb[n - 1]), required, nameA, nameB);
      ContextConcat(DiffRuntimes(names[..n - 1], va[..n - 1], vb[..n - 1]),
          CompareRuntime(names[n - 1], va[n - 1], vb[n - 1]),
                    required, nameA, nameB);
      OneRuntimeNamed(names[n - 1], va[n - 1], vb[n - 1], required, nameA, nameB);
      var q := seq(|last|, _ => Place(1, n - 1));
      JoinInOrder(AllInContext(DiffRuntimes(names[..n - 1], va[..n - 1], vb[..n - 1]), required, nameA, nameB), last,
                  a, b, before, q);
      places := before + q;
    }
  }

  lemma OneRuntimeNamed(name: string, a: VersionInfo, b: VersionInfo, required: set<string>,
      nameA: string, nameB: string)
    ensures var es := AllInContext(CompareRuntime(name, a, b), required, nameA, nameB);
      |es| <= 1 && forall i | 0 <= i < |es| :: es[i].category == "Runtime" && es[i].name == name
  {
    hide MissingOn, MismatchText, Versions.MajorDiffers;
  }

  lemma {:induction false} PortsInOrder(ports: seq<int>, a: Snapshot, b: Snapshot) returns (places: seq<Place>)
    requires forall i, j | 0 <= i < j < |ports| :: ports[i] < ports[j]
    ensures InOrder(PortEntries(ports, a.ports, b.ports), a, b, places)
    ensures AllIn(places, 2) && forall i | 0 <= i < |places| :: places[i].at in ports
  {
    hide PortEntry, PortTold;
    if ports == [] {
      places := [];
    } else {
      var front, p := ports[..|ports| - 1], ports[|ports| - 1];
      var before := PortsInOrder(front, a, b);
      var last := PortEntry(p, a.ports, b.ports);
      forall i | 0 <= i < |last|
        ensures PortTold(last[i], p, a.ports, b.ports)
      {
        PortTells(p, a.ports, b.ports, last[i]);
      }
      AtMostOnePort(p, a.ports, b.ports);
      var q := seq(|last|, _ => Place(2, p));
      forall i | 0 <= i < |before|
        ensures before[i].at < p
      {
        var k :| 0 <= k < |front| && front[k] == before[i].at;
        assert ports[k] == front[k];
      }
      JoinInOrder(PortEntries(front, a.ports, b.ports), last, a, b, before, q);
      places := before + q;
    }
  }

  lemma AtMostOnePort(p: int, a: map<int, PortInfo>, b: map<int, PortInfo>)
    ensures |PortEntry(p, a, b)| <= 1
  {
  }

  lemma EnvInOrder(a: Snapshot, b: Snapshot) returns (places: seq<Place>)
    ensures InOrder(DiffEnvFiles(a.missingKeys, b.missingKeys), a, b, places) && AllIn(places, 3)
  {
    var x, y := Subtract(b.missingKeys, a.missingKeys), Subtract(a.missingKeys, b.missingKeys);
    hide Join, Subtract;
    var p, q := seq(|EnvEntry(SideB, x)|, _ => Place(3, 0)), seq(|EnvEntry(SideA, y)|, _ => Place(3, 1));
    assert LACKS[0] == 'm' && "present"[0] == 'p';
    JoinInOrder(EnvEntry(SideB, x), EnvEntry(SideA, y), a, b, p, q);
    places := p + q;
  }

  /** The entries stand in that order, each at most once. */
  lemma EntriesInOrder(a: Snapshot, b: Snapshot, nameA: string, nameB: string) returns (places: seq<Place>)
    ensures InOrder(FullDiff(a, b, nameA, nameB), a, b, places)
  {
    hide InOrder, DiffEnvironment, DiffRuntimes, DiffEnvFiles, AllInContext, RequiredRuntimes, FullDiff, RuntimeInfos,
        RUNTIME_NAMES, PortEntries;
    var req, n := RequiredRuntimes(a.manifests, b.manifests), |RUNTIME_NAMES|;
    FullDiffInParts(a, b, nameA, nameB);
    var p0 := FieldsInOrder(a, b);
    var p1 := RuntimesInOrder(n, a, b, req, nameA, nameB);
    assert RUNTIME_NAMES[..n] == RUNTIME_NAMES && RuntimeInfos(a.runtimes)[..n] == RuntimeInfos(a.runtimes)
           && RuntimeInfos(b.runtimes)[..n] == RuntimeInfos(b.runtimes);
    var p2 := PortsInOrder(UnionPorts(a.ports, b.ports), a, b);
    var p3 := EnvInOrder(a, b);
    var e0, e1 := DiffEnvironment(a, b),
        AllInContext(DiffRuntimes(RUNTIME_NAMES, RuntimeInfos(a.runtimes), RuntimeInfos(b.runtimes)),
            req, nameA, nameB);
    var e2, e3 := DiffPorts(a.ports, b.ports), DiffEnvFiles(a.missingKeys, b.missingKeys);
    JoinInOrder(e0, e1, a, b, p0, p1);
    JoinInOrder(e0 + e1, e2, a, b, p0 + p1, p2);
    JoinInOrder(e0 + e1 + e2, e3, a, b, p0 + p1 + p2, p3);
    places := p0 + p1 + p2 + p3;
  }
}
