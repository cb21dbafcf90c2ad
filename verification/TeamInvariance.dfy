/** The team summary depends only on which snapshots were compared: not on names, not on order. */
module TeamInvariance {
  import opened Text
  import opened Model
  import opened Diff
  import opened Team
  import Reports

  // ------------------------------------------------ a blocker's first word

  /** The word, one space, and a next word that is not an "on". */
  ghost predicate StartsWithWord(text: string, w: string) {
    |text| > |w| + 1 && text[|w|] == ' ' && !IsSpace(text[|w| + 1]) && text[|w| + 1] != 'o'
    && forall i | 0 <= i < |w| :: text[i] == w[i]
  }

  lemma FirstWordUnique(text: string, x: string, y: string)
    requires StartsWithWord(text, x) && StartsWithWord(text, y) && NoSpace(x) && NoSpace(y)
    ensures x == y
  {
    IndexByteUnique(text, ' ', |x|);
    IndexByteUnique(text, ' ', |y|);
  }

  lemma WordThenText(w: string, rest: string)
    requires |rest| > 1 && rest[0] == ' ' && !IsSpace(rest[1]) && rest[1] != 'o'
    ensures StartsWithWord(w + rest, w)
  {
  }

  const ENV_TAG := "required"

  function Tag(e: Entry): string { if e.category == "Env" then ENV_TAG else e.name }

  /** An entry's blocker, if any, opens with its tag. */
  ghost predicate Tagged(e: Entry) { e.blocker == "" || StartsWithWord(e.blocker, Tag(e)) }

  lemma RuntimeTagged(name: string, a: string, b: string, s: Severity)
    ensures Tagged(RuntimeEntry(name, a, b, s))
  {
    var text := " major version mismatch (";
    var rest := text + a + " vs " + b + ")";
    assert rest[0] == text[0] == ' ' && rest[1] == text[1] == 'm';
    WordThenText(name, rest);
    assert name + " major version mismatch (" + a + " vs " + b + ")" == name + rest;
  }

  lemma ContextTagged(e: Entry, required: set<string>, nameA: string, nameB: string)
    requires Tagged(e)
    ensures Tagged(InContext(e, required, nameA, nameB)) && Tag(InContext(e, required, nameA, nameB)) == Tag(e)
  {
    var who := if e.a == MISSING then nameA else nameB;
    var text := " is required by this project but missing on ";
    assert text[0] == ' ' && text[1] == 'i';
    var rest := text + who;
    assert rest[0] == text[0] && rest[1] == text[1];
    WordThenText(e.name, rest);
    assert MissingOn(e.name, who) == e.name + rest;
  }

  // ------------------------------- normalizing drops exactly the machine name

  const IS_MISSING := " is required by this project but missing"

  /** No space is followed by an 'o'. */
  ghost predicate NoSpaceO(s: string) { forall i | 0 <= i < |s| - 1 :: s[i] == ' ' ==> s[i + 1] != 'o' }

  lemma IsMissingText()
    ensures NoSpaceO(IS_MISSING) && IS_MISSING[|IS_MISSING| - 1] == 'g'
  {
  }

  lemma OccursOn(s: string, i: int)
    ensures Occurs(s, ON, i) ==> s[i] == ' ' && s[i + 1] == 'o'
    ensures 0 <= i && i + 4 <= |s| && s[i..i + 4] == ON ==> Occurs(s, ON, i)
  {
    if Occurs(s, ON, i) {
      assert s[i] == s[i..i + |ON|][0] && s[i + 1] == s[i..i + |ON|][1];
    }
  }

  /** A text cut at its first " on ", when nothing before it looks like one. */
  lemma NormalizeAt(p: string, rest: string)
    requires p != "" && NoSpaceO(p) && Trimmed(p)
    ensures NormalizeBlocker(p + ON + rest) == p
  {
    hide Trim;
    var s := p + ON + rest;
    assert s[|p|..|p| + 4] == ON;
    OccursOn(s, |p|);
    forall j | 0 <= j < |p|
      ensures !Occurs(s, ON, j)
    {
      OccursOn(s, j);
      assert s[j] == p[j] && (j < |p| - 1 ==> s[j + 1] == p[j + 1]);
    }
    assert Index(s, ON) == |p|;
    assert s[..|p|] == p;
    TrimOfTrimmed(p);
  }

  lemma NormalizeMissingOn(name: string, who: string)
    requires name != "" && NoSpace(name)
    ensures NormalizeBlocker(MissingOn(name, who)) == name + IS_MISSING
  {
    IsMissingText();
    var p := name + IS_MISSING;
    assert forall j | 0 <= j < |p| :: p[j] == if j < |name| then name[j] else IS_MISSING[j - |name|];
    NormalizeAt(p, who);
    hide NormalizeBlocker;
    MissingOnSplits(name, who);
  }

  lemma MissingOnSplits(name: string, who: string)
    ensures MissingOn(name, who) == name + IS_MISSING + ON + who
  {
    assert IS_MISSING + ON == " is required by this project but missing on ";
    assert name + (IS_MISSING + ON) == name + IS_MISSING + ON;
  }

  // ------------------------------------ blockers of one machine are distinct

  ghost predicate DistinctBlockers(es: seq<Entry>) {
    forall i, j | 0 <= i < j < |es| && es[i].blocker != "" :: es[i].blocker != es[j].blocker
  }

  ghost predicate Quiet(es: seq<Entry>) { forall i | 0 <= i < |es| :: es[i].blocker == "" }

  ghost predicate Apart(x: seq<Entry>, y: seq<Entry>) {
    forall i, j | 0 <= i < |x| && 0 <= j < |y| && x[i].blocker != "" :: x[i].blocker != y[j].blocker
  }

  lemma DistinctConcat(x: seq<Entry>, y: seq<Entry>)
    requires DistinctBlockers(x) && DistinctBlockers(y) && Apart(x, y)
    ensures DistinctBlockers(x + y)
  {
  }

  /** Runtime names are space-free, nonempty, not the env tag, and different from each other. */
  ghost predicate GoodNames(names: seq<string>) {
    && (forall i | 0 <= i < |names| :: names[i] != "" && NoSpace(names[i]) && names[i] != ENV_TAG)
    && (forall i, j | 0 <= i < j < |names| :: names[i] != names[j])
  }

  lemma RuntimeNamesGood()
    ensures GoodNames(RUNTIME_NAMES)
  {
    forall i | 0 <= i < |RUNTIME_NAMES|
      ensures RUNTIME_NAMES[i] != "" && NoSpace(RUNTIME_NAMES[i]) && RUNTIME_NAMES[i] != ENV_TAG
    {
      assert |RUNTIME_NAMES[i]| < |ENV_TAG|;
    }
  }

  ghost predicate RuntimeList(es: seq<Entry>, names: seq<string>) {
    && (forall i | 0 <= i < |es| :: es[i].category == "Runtime" && es[i].name in names && Tagged(es[i]))
    && (forall i, j | 0 <= i < j < |es| :: es[i].name != es[j].name)
  }

  lemma {:induction false} DiffRuntimesListed(names: seq<string>, a: seq<VersionInfo>, b: seq<VersionInfo>)
    requires |names| == |a| == |b| && GoodNames(names)
    ensures RuntimeList(DiffRuntimes(names, a, b), names)
  {
    if names != [] {
      var n := |names| - 1;
      DiffRuntimesListed(names[..n], a[..n], b[..n]);
      OneRuntimeListed(names[n], a[n], b[n]);
      assert names[n] !in names[..n];
      assert forall x | x in names[..n] :: x in names;
      assert names[n] in names;
    }
  }

  lemma OneRuntimeListed(name: string, a: VersionInfo, b: VersionInfo)
    ensures RuntimeList(CompareRuntime(name, a, b), [name])
  {
    RuntimeTagged(name, a.version, MISSING, Difference);
    RuntimeTagged(name, MISSING, b.version, Difference);
    RuntimeTagged(name, a.version, b.version, Difference);
    RuntimeTagged(name, a.version, b.version, Critical);
  }

  lemma RuntimeListInContext(es: seq<Entry>, names: seq<string>, required: set<string>, nameA: string, nameB: string)
    requires RuntimeList(es, names)
    ensures RuntimeList(AllInContext(es, required, nameA, nameB), names)
  {
    forall i | 0 <= i < |es|
      ensures Tagged(InContext(es[i], required, nameA, nameB))
    {
      ContextTagged(es[i], required, nameA, nameB);
    }
  }

  lemma RuntimeListDistinct(es: seq<Entry>, names: seq<string>)
    requires RuntimeList(es, names) && GoodNames(names)
    ensures DistinctBlockers(es)
  {
    forall i, j | 0 <= i < j < |es| && es[i].blocker != ""
      ensures es[i].blocker != es[j].blocker
    {
      if es[i].blocker == es[j].blocker {
        FirstWordUnique(es[i].blocker, es[i].name, es[j].name);
      }
    }
  }

  lemma LiteralOpensWith(literal: string, w: string, rest: string)
    requires StartsWithWord(literal, w)
    ensures StartsWithWord(literal + rest, w)
  {
  }

  lemma EnvEntryTagged(side: Side, keys: seq<string>)
    ensures forall i | 0 <= i < |EnvEntry(side, keys)| ::
              EnvEntry(side, keys)[i].category == "Env" && EnvEntry(side, keys)[i].blocker != ""
                  && Tagged(EnvEntry(side, keys)[i])
  {
    assert StartsWithWord(ABSENT_ON_A, ENV_TAG) && StartsWithWord(ABSENT_ON_B, ENV_TAG);
    LiteralOpensWith(ABSENT_ON_A, ENV_TAG, Join(keys, ", "));
    LiteralOpensWith(ABSENT_ON_B, ENV_TAG, Join(keys, ", "));
    hide StartsWithWord, Join;
  }

  lemma OnSideA(rest: string)
    ensures (ABSENT_ON_A + rest)[41] == 'A'
  {
    assert ABSENT_ON_A[41] == 'A';
  }

  lemma OnSideB(rest: string)
    ensures (ABSENT_ON_B + rest)[41] == 'B'
  {
    assert ABSENT_ON_B[41] == 'B';
  }

  lemma EnvFilesDistinct(a: seq<string>, b: seq<string>)
    ensures DistinctBlockers(DiffEnvFiles(a, b))
    ensures forall i | 0 <= i < |DiffEnvFiles(a, b)| ::
              DiffEnvFiles(a, b)[i].category == "Env" && Tagged(DiffEnvFiles(a, b)[i])
  {
    var x, y := Subtract(b, a), Subtract(a, b);
    EnvEntryTagged(SideB, x);
    EnvEntryTagged(SideA, y);
    if x != [] && y != [] {
      var p, q := EnvEntry(SideB, x)[0].blocker, EnvEntry(SideA, y)[0].blocker;
      OnSideA(Join(y, ", "));
      OnSideB(Join(x, ", "));
      hide Join;
      assert p[41] != q[41];
    }
  }

  lemma RuntimesApartFromEnv(rs: seq<Entry>, names: seq<string>, es: seq<Entry>)
    requires RuntimeList(rs, names) && GoodNames(names)
    requires forall i | 0 <= i < |es| :: es[i].category == "Env" && Tagged(es[i])
    ensures Apart(rs, es)
  {
    EnvTagIsWord();
    forall i, j | 0 <= i < |rs| && 0 <= j < |es| && rs[i].blocker != ""
      ensures rs[i].blocker != es[j].blocker
    {
      if rs[i].blocker == es[j].blocker {
        FirstWordUnique(rs[i].blocker, rs[i].name, ENV_TAG);
      }
    }
  }

  lemma EnvTagIsWord()
    ensures NoSpace(ENV_TAG)
  {
  }

  lemma ContextParts(e1: seq<Entry>, e2: seq<Entry>, e3: seq<Entry>, e4: seq<Entry>, req: set<string>,
      na: string, nb: string)
    ensures AllInContext(e1 + e2 + e3 + e4, req, na, nb)
         == AllInContext(e1, req, na, nb) + AllInContext(e2, req, na, nb) + AllInContext(e3, req, na, nb)
             + AllInContext(e4, req, na, nb)
  {
    hide AllInContext;
    ContextConcat(e1 + e2 + e3, e4, req, na, nb);
    ContextConcat(e1 + e2, e3, req, na, nb);
    ContextConcat(e1, e2, req, na, nb);
  }

  lemma QuietInContext(es: seq<Entry>, req: set<string>, na: string, nb: string)
    requires Quiet(es) && forall i | 0 <= i < |es| :: es[i].category != "Runtime"
    ensures Quiet(AllInContext(es, req, na, nb))
  {
  }

  lemma EnvironmentQuiet(a: Snapshot, b: Snapshot)
    ensures Quiet(DiffEnvironment(a, b))
    ensures forall i | 0 <= i < |DiffEnvironment(a, b)| :: DiffEnvironment(a, b)[i].category != "Runtime"
  {
  }

  lemma PortsQuiet(a: map<int, PortInfo>, b: map<int, PortInfo>)
    ensures Quiet(DiffPorts(a, b)) && forall i | 0 <= i < |DiffPorts(a, b)| :: DiffPorts(a, b)[i].category != "Runtime"
  {
    PortEntriesQuiet(UnionPorts(a, b), a, b);
  }

  lemma EnvFilesUntouched(a: seq<string>, b: seq<string>, req: set<string>, na: string, nb: string)
    ensures AllInContext(DiffEnvFiles(a, b), req, na, nb) == DiffEnvFiles(a, b)
  {
    EnvFilesDistinct(a, b);
    hide DiffEnvFiles;
  }

  /** A full comparison: runtime entries and env entries, with entries in between that block nothing. */
  lemma FullDiffParts(a: Snapshot, b: Snapshot, na: string, nb: string)
      returns (q1: seq<Entry>, r: seq<Entry>, q2: seq<Entry>)
    ensures FullDiff(a, b, na, nb) == q1 + r + q2 + DiffEnvFiles(a.missingKeys, b.missingKeys)
    ensures Quiet(q1) && Quiet(q2) && RuntimeList(r, RUNTIME_NAMES) && GoodNames(RUNTIME_NAMES)
  {
    hide DiffEnvironment, DiffRuntimes, DiffPorts, DiffEnvFiles, AllInContext, RequiredRuntimes, RuntimeInfos,
        RuntimeList, Quiet, GoodNames;
    var req := RequiredRuntimes(a.manifests, b.manifests);
    var e1, e3, e4 := DiffEnvironment(a, b), DiffPorts(a.ports, b.ports), DiffEnvFiles(a.missingKeys, b.missingKeys);
    var e2 := DiffRuntimes(RUNTIME_NAMES, RuntimeInfos(a.runtimes), RuntimeInfos(b.runtimes));
    ContextParts(e1, e2, e3, e4, req, na, nb);
    EnvironmentQuiet(a, b);
    QuietInContext(e1, req, na, nb);
    PortsQuiet(a.ports, b.ports);
    QuietInContext(e3, req, na, nb);
    EnvFilesUntouched(a.missingKeys, b.missingKeys, req, na, nb);
    RuntimeNamesGood();
    DiffRuntimesListed(RUNTIME_NAMES, RuntimeInfos(a.runtimes), RuntimeInfos(b.runtimes));
    RuntimeListInContext(e2, RUNTIME_NAMES, req, na, nb);
    q1, r, q2 := AllInContext(e1, req, na, nb), AllInContext(e2, req, na, nb), AllInContext(e3, req, na, nb);
  }

  /** The dedup of one machine's blockers never drops a nonempty one. */
  lemma FullDiffDistinct(a: Snapshot, b: Snapshot, nameA: string, nameB: string)
    ensures DistinctBlockers(FullDiff(a, b, nameA, nameB))
  {
    hide FullDiff, DiffEnvFiles, DistinctBlockers, RuntimeList, GoodNames, Quiet;
    var q1, r, q2 := FullDiffParts(a, b, nameA, nameB);
    var keys := DiffEnvFiles(a.missingKeys, b.missingKeys);
    EnvFilesDistinct(a.missingKeys, b.missingKeys);
    RuntimeListDistinct(r, RUNTIME_NAMES);
    RuntimesApartFromEnv(r, RUNTIME_NAMES, keys);
    FourParts(q1, r, q2, keys);
  }

  lemma FourParts(q1: seq<Entry>, r: seq<Entry>, q2: seq<Entry>, es: seq<Entry>)
    requires Quiet(q1) && Quiet(q2) && DistinctBlockers(r) && DistinctBlockers(es) && Apart(r, es)
    ensures DistinctBlockers(q1 + r + q2 + es)
  {
    DistinctConcat(q1, r);
    DistinctConcat(q1 + r, q2);
    DistinctConcat(q1 + r + q2, es);
  }

  // ------------------------------------------------- the name drops out

  function NonEmpty(texts: seq<string>): seq<string> {
    if texts == [] then []
    else NonEmpty(texts[..|texts| - 1]) + if texts[|texts| - 1] == "" then [] else [texts[|texts| - 1]]
  }

  lemma {:induction false} DedupOfDistinct(texts: seq<string>)
    requires forall i, j | 0 <= i < j < |texts| && texts[i] != "" :: texts[i] != texts[j]
    ensures Reports.Dedup(texts) == NonEmpty(texts)
  {
    if texts != [] {
      var front, last := texts[..|texts| - 1], texts[|texts| - 1];
      DedupOfDistinct(front);
      if last in front {
        var i :| 0 <= i < |front| && front[i] == last;
        assert texts[i] == last;
      }
    }
  }

  lemma {:induction false} NormsAlign(t: seq<string>, u: seq<string>)
    requires |t| == |u|
    requires forall i | 0 <= i < |t| :: (t[i] == "" <==> u[i] == "") && NormalizeBlocker(t[i]) == NormalizeBlocker(u[i])
    ensures NormalizeAll(NonEmpty(t)) == NormalizeAll(NonEmpty(u))
  {
    if t != [] {
      var n := |t| - 1;
      NormsAlign(t[..n], u[..n]);
      if t[n] != "" {
        NormalizeSnoc(NonEmpty(t[..n]), t[n]);
        NormalizeSnoc(NonEmpty(u[..n]), u[n]);
      }
    }
  }

  lemma NormalizeSnoc(bs: seq<string>, b: string)
    ensures NormalizeAll(bs + [b]) == NormalizeAll(bs) + [NormalizeBlocker(b)]
  {
  }

  lemma ContextNameDrops(e: Entry, required: set<string>, n1: string, n2: string)
    requires e.category == "Runtime" ==> e.name != "" && NoSpace(e.name)
    ensures var x, y := InContext(e, required, BASELINE, n1), InContext(e, required, BASELINE, n2);
      && (x.blocker == "" <==> y.blocker == "")
      && NormalizeBlocker(x.blocker) == NormalizeBlocker(y.blocker)
      && x.category == y.category && x.name == y.name
  {
    if e.category == "Runtime" {
      NormalizeMissingOn(e.name, n1);
      NormalizeMissingOn(e.name, n2);
      assert MissingOn(e.name, n1) != "" && MissingOn(e.name, n2) != "";
    }
  }

  ghost predicate WellNamed(es: seq<Entry>) {
    forall i | 0 <= i < |es| :: es[i].category == "Runtime" ==> es[i].name != "" && NoSpace(es[i].name)
  }

  lemma WellNamedConcat(x: seq<Entry>, y: seq<Entry>)
    requires WellNamed(x) && WellNamed(y)
    ensures WellNamed(x + y)
  {
  }

  lemma RuntimeEntriesNamed(a: Snapshot, b: Snapshot)
    ensures WellNamed(Entries(a, b))
  {
    hide *;
    var e1, e3, e4 := DiffEnvironment(a, b), DiffPorts(a.ports, b.ports), DiffEnvFiles(a.missingKeys, b.missingKeys);
    var e2 := DiffRuntimes(RUNTIME_NAMES, RuntimeInfos(a.runtimes), RuntimeInfos(b.runtimes));
    PartsWellNamed(a, b);
    WellNamedConcat(e1, e2);
    WellNamedConcat(e1 + e2, e3);
    WellNamedConcat(e1 + e2 + e3, e4);
    EntriesAre(a, b);
  }

  lemma PartsWellNamed(a: Snapshot, b: Snapshot)
    ensures WellNamed(DiffEnvironment(a, b)) && WellNamed(DiffPorts(a.ports, b.ports))
    ensures WellNamed(DiffRuntimes(RUNTIME_NAMES, RuntimeInfos(a.runtimes), RuntimeInfos(b.runtimes)))
    ensures WellNamed(DiffEnvFiles(a.missingKeys, b.missingKeys))
  {
    hide DiffEnvironment, DiffRuntimes, DiffPorts, DiffEnvFiles, RuntimeInfos;
    EnvironmentQuiet(a, b);
    PortsQuiet(a.ports, b.ports);
    RuntimeNamesGood();
    DiffRuntimesListed(RUNTIME_NAMES, RuntimeInfos(a.runtimes), RuntimeInfos(b.runtimes));
    EnvFilesDistinct(a.missingKeys, b.missingKeys);
  }

  lemma NameDropsFromEntries(es: seq<Entry>, req: set<string>, n1: string, n2: string)
    requires WellNamed(es)
    requires DistinctBlockers(AllInContext(es, req, BASELINE, n1))
              && DistinctBlockers(AllInContext(es, req, BASELINE, n2))
    ensures NormalizeAll(Reports.Dedup(BlockerTexts(AllInContext(es, req, BASELINE, n1))))
         == NormalizeAll(Reports.Dedup(BlockerTexts(AllInContext(es, req, BASELINE, n2))))
    ensures RuntimeColumns(AllInContext(es, req, BASELINE, n1)) == RuntimeColumns(AllInContext(es, req, BASELINE, n2))
  {
    hide InContext, NormalizeBlocker;
    var x, y := AllInContext(es, req, BASELINE, n1), AllInContext(es, req, BASELINE, n2);
    forall i | 0 <= i < |es|
      ensures x[i].blocker == "" <==> y[i].blocker == ""
      ensures NormalizeBlocker(x[i].blocker) == NormalizeBlocker(y[i].blocker)
      ensures x[i].category == y[i].category && x[i].name == y[i].name
    {
      ContextNameDrops(es[i], req, n1, n2);
    }
    DedupOfDistinct(BlockerTexts(x));
    DedupOfDistinct(BlockerTexts(y));
    NormsAlign(BlockerTexts(x), BlockerTexts(y));
  }

  /** A machine's normalized blockers and columns do not depend on what it is called. */
  lemma NameDropsOut(baseline: Snapshot, snap: Snapshot, n1: string, n2: string)
    ensures NormalizeAll(MachineBlockers(baseline, Input(n1, snap)))
              == NormalizeAll(MachineBlockers(baseline, Input(n2, snap)))
    ensures MachineColumns(baseline, Input(n1, snap)) == MachineColumns(baseline, Input(n2, snap))
  {
    hide Entries, RequiredRuntimes, AllInContext, RuntimeColumns, NormalizeAll, BlockerTexts, Reports.Dedup;
    RuntimeEntriesNamed(baseline, snap);
    FullDiffDistinct(baseline, snap, BASELINE, n1);
    FullDiffDistinct(baseline, snap, BASELINE, n2);
    NameDropsFromEntries(Entries(baseline, snap), RequiredRuntimes(baseline.manifests, snap.manifests), n1, n2);
  }

  // ------------------------------------------------- the order drops out

  function Snapshots(inputs: seq<Input>): (r: seq<Snapshot>)
    ensures |r| == |inputs| && forall i | 0 <= i < |inputs| :: r[i] == inputs[i].snapshot
  {
    seq(|inputs|, i requires 0 <= i < |inputs| => inputs[i].snapshot)
  }

  ghost function NormsOf(baseline: Snapshot, snap: Snapshot): seq<string> {
    NormalizeAll(MachineBlockers(baseline, Input("", snap)))
  }

  ghost function SnapshotBlockers(baseline: Snapshot, snaps: seq<Snapshot>): seq<string> {
    if snaps == [] then []
    else SnapshotBlockers(baseline, snaps[..|snaps| - 1]) + NormsOf(baseline, snaps[|snaps| - 1])
  }

  lemma LastBlockers(baseline: Snapshot, inputs: seq<Input>, n: nat)
    requires |inputs| == n + 1
    ensures AllBlockers(baseline, inputs)
         == AllBlockers(baseline, inputs[..n]) + NormalizeAll(MachineBlockers(baseline, inputs[n]))
  {
    hide NormalizeAll, MachineBlockers;
  }

  lemma LastSnapshotBlockers(baseline: Snapshot, inputs: seq<Input>, n: nat)
    requires |inputs| == n + 1
    ensures SnapshotBlockers(baseline, Snapshots(inputs))
         == SnapshotBlockers(baseline, Snapshots(inputs[..n]))
             + NormalizeAll(MachineBlockers(baseline, Input("", inputs[n].snapshot)))
  {
    hide NormalizeAll, MachineBlockers;
    assert Snapshots(inputs)[..n] == Snapshots(inputs[..n]);
  }

  lemma NoBlockers(baseline: Snapshot)
    ensures AllBlockers(baseline, []) == [] == SnapshotBlockers(baseline, Snapshots([]))
  {
  }

  lemma {:induction false} AllBlockersOfSnapshots(baseline: Snapshot, inputs: seq<Input>)
    ensures AllBlockers(baseline, inputs) == SnapshotBlockers(baseline, Snapshots(inputs))
  {
    hide *;
    if inputs == [] {
      NoBlockers(baseline);
    } else {
      var n := |inputs| - 1;
      AllBlockersOfSnapshots(baseline, inputs[..n]);
      NameDropsOut(baseline, inputs[n].snapshot, inputs[n].name, "");
      assert inputs[n] == Input(inputs[n].name, inputs[n].snapshot);
      LastBlockers(baseline, inputs, n);
      LastSnapshotBlockers(baseline, inputs, n);
    }
  }

  function Without<T>(s: seq<T>, i: nat): seq<T>
    requires i < |s|
  {
    s[..i] + s[i + 1..]
  }

  lemma WithoutBeforeLast<T>(s: seq<T>, i: nat)
    requires i < |s| - 1
    ensures Without(s, i) != [] && Without(s, i)[|s| - 2] == s[|s| - 1]
    ensures Without(s, i)[..|s| - 2] == Without(s[..|s| - 1], i)
  {
    var w, v := Without(s, i), Without(s[..|s| - 1], i);
    assert forall k | 0 <= k < |v| :: v[k] == w[k];
  }

  lemma WithoutLast<T>(s: seq<T>)
    requires s != []
    ensures Without(s, |s| - 1) == s[..|s| - 1]
  {
  }

  lemma WithoutRemoves<T>(s: seq<T>, i: nat)
    requires i < |s|
    ensures multiset(Without(s, i)) == multiset(s) - multiset{s[i]}
  {
    assert s == s[..i] + [s[i]] + s[i + 1..];
  }

  lemma {:induction false} RemoveOne(baseline: Snapshot, s: seq<Snapshot>, i: nat)
    requires i < |s|
    ensures multiset(SnapshotBlockers(baseline, s))
         == multiset(SnapshotBlockers(baseline, Without(s, i))) + multiset(NormsOf(baseline, s[i]))
  {
    hide NormsOf;
    var n := |s| - 1;
    if i == n {
      assert Without(s, i) == s[..n];
    } else {
      RemoveOne(baseline, s[..n], i);
      WithoutBeforeLast(s, i);
    }
  }

  lemma {:induction false} BlockersIgnoreOrder(baseline: Snapshot, s: seq<Snapshot>, t: seq<Snapshot>)
    requires multiset(s) == multiset(t)
    ensures multiset(SnapshotBlockers(baseline, s)) == multiset(SnapshotBlockers(baseline, t))
    decreases |s|
  {
    hide NormsOf;
    if s == [] {
      assert |multiset(t)| == |t|;
    } else {
      var n := |s| - 1;
      assert s[n] in multiset(s);
      assert s[n] in t;
      hide Without, SnapshotBlockers;
      var i :| 0 <= i < |t| && t[i] == s[n];
      RemoveOne(baseline, t, i);
      WithoutRemoves(t, i);
      WithoutRemoves(s, n);
      WithoutLast(s);
      BlockersIgnoreOrder(baseline, s[..n], Without(t, i));
    }
  }

  lemma TallyUnique(x: map<string, nat>, y: map<string, nat>, a: seq<string>, b: seq<string>)
    requires Tallies(x, a) && Tallies(y, b) && multiset(a) == multiset(b)
    ensures x == y
  {
    forall k
      ensures k in a <==> k in b
    {
      assert k in a <==> k in multiset(a);
      assert k in b <==> k in multiset(b);
    }
  }

  lemma ColumnsIgnoreNamesAndOrder(baseline: Snapshot, a: seq<Input>, b: seq<Input>)
    requires multiset(Snapshots(a)) == multiset(Snapshots(b))
    ensures AllRuntimeColumns(baseline, a) <= AllRuntimeColumns(baseline, b)
  {
    hide MachineColumns;
    forall c | c in AllRuntimeColumns(baseline, a)
      ensures c in AllRuntimeColumns(baseline, b)
    {
      ColumnsAreTheUnion(baseline, a, c);
      ColumnsAreTheUnion(baseline, b, c);
      var i :| 0 <= i < |a| && c in MachineColumns(baseline, a[i]);
      var snap := a[i].snapshot;
      assert Snapshots(a)[i] == snap;
      assert snap in multiset(Snapshots(a));
      assert snap in Snapshots(b);
      var j :| 0 <= j < |b| && Snapshots(b)[j] == snap;
      NameDropsOut(baseline, snap, a[i].name, b[j].name);
      assert a[i] == Input(a[i].name, snap) && b[j] == Input(b[j].name, snap);
    }
  }

  /** Renaming machines or listing them in another order changes neither columns nor ranking. */
  lemma SummaryDependsOnlyOnSnapshots(baseline: Snapshot, a: seq<Input>, b: seq<Input>, sa: Summary, sb: Summary)
    requires IsSummary(baseline, a, sa) && IsSummary(baseline, b, sb)
    requires multiset(Snapshots(a)) == multiset(Snapshots(b))
    ensures sa.columns == sb.columns
    ensures sa.commonBlockers == sb.commonBlockers
  {
    ColumnsIgnoreNamesAndOrder(baseline, a, b);
    ColumnsIgnoreNamesAndOrder(baseline, b, a);
    assert AllRuntimeColumns(baseline, a) == AllRuntimeColumns(baseline, b);
    AllBlockersOfSnapshots(baseline, a);
    AllBlockersOfSnapshots(baseline, b);
    BlockersIgnoreOrder(baseline, Snapshots(a), Snapshots(b));
    var x :| Tallies(x, AllBlockers(baseline, a)) && sa.commonBlockers == Ranking(x);
    var y :| Tallies(y, AllBlockers(baseline, b)) && sb.commonBlockers == Ranking(y);
    TallyUnique(x, y, AllBlockers(baseline, a), AllBlockers(baseline, b));
  }
}
