/** The team table, cell by cell, read off the snapshots. */
module TeamTable {
  import opened Text
  import opened Sorting
  import opened Model
  import opened Team
  import opened DiffSides
  import RuntimeNames
  import Decimal
  import Diff

  // ------------------------------------------------------------ the order

  /** Byte order: at the first place where they differ the first is smaller, or ends there. */
  ghost predicate BytewiseBefore(a: string, b: string) {
    exists k: nat :: k <= |a| && k < |b| && a[..k] == b[..k] && (k == |a| || a[k] < b[k])
  }

  lemma {:induction false} StringLessIsBytewise(a: string, b: string)
    ensures StringLess(a, b) <==> BytewiseBefore(a, b)
    decreases |a|
  {
    if b == "" {
    } else if a == "" {
      assert a[..0] == b[..0];
    } else {
      StringLessIsBytewise(a[1..], b[1..]);
      if a[0] < b[0] { assert a[..0] == b[..0]; }
      if a[0] == b[0] && BytewiseBefore(a[1..], b[1..]) {
        var k: nat :| k <= |a[1..]| && k < |b[1..]| && a[1..][..k] == b[1..][..k]
            && (k == |a[1..]| || a[1..][k] < b[1..][k]);
        assert a[..k + 1] == [a[0]] + a[1..][..k] && b[..k + 1] == [b[0]] + b[1..][..k];
      }
      if BytewiseBefore(a, b) && a[0] == b[0] {
        var k: nat :| k <= |a| && k < |b| && a[..k] == b[..k] && (k == |a| || a[k] < b[k]);
        assert k > 0;
        assert a[1..][..k - 1] == a[..k][1..] && b[1..][..k - 1] == b[..k][1..];
      }
      if BytewiseBefore(a, b) && a[0] != b[0] {
        var k: nat :| k <= |a| && k < |b| && a[..k] == b[..k] && (k == |a| || a[k] < b[k]);
        assert k > 0 ==> a[..k][0] == b[..k][0];
      }
    }
  }

  /** More machines first, and among equals the smaller text. */
  lemma RankingOrder(baseline: Snapshot, inputs: seq<Input>, s: Summary, i: nat, j: nat)
    requires IsSummary(baseline, inputs, s) && i < j < |s.commonBlockers|
    ensures var x, y := s.commonBlockers[i], s.commonBlockers[j];
      x.count > y.count || (x.count == y.count && BytewiseBefore(x.blocker, y.blocker))
  {
    SummaryProperties(baseline, inputs, s);
    StringLessIsBytewise(s.commonBlockers[i].blocker, s.commonBlockers[j].blocker);
    hide StringLess, BytewiseBefore, IsSummary;
  }

  // ------------------------------------------------------------- the columns

  ghost predicate DiffersAt(baseline: Snapshot, in_: Input, r: nat)
    requires r < |RUNTIME_NAMES|
  {
    RuntimesDiffer(RuntimeInfos(baseline.runtimes)[r], RuntimeInfos(in_.snapshot.runtimes)[r])
  }

  lemma NamesApart(snapshot: Snapshot, r: nat, q: nat)
    requires r < |RUNTIME_NAMES| && q < |RUNTIME_NAMES| && RUNTIME_NAMES[r] == RUNTIME_NAMES[q]
    ensures r == q
  {
    var rs := snapshot.runtimes;
    RuntimeNames.FieldsInOrder(rs, 0);
    RuntimeNames.FieldsInOrder(rs, r);
    RuntimeNames.FieldsInOrder(rs, q);
    RuntimeNames.NamesAreMarked(rs, r);
    RuntimeNames.NamesAreMarked(rs, q);
    hide RUNTIME_NAMES, RuntimeNames.Named, RuntimeNames.Mark, RuntimeNames.MarkOf, RuntimeInfos;
    RuntimeNames.MarksDiffer(r, q);
  }

  /** What a machine's comparison holds about a runtime: one entry that shows its own side, or none. */
  lemma RuntimeInDiff(baseline: Snapshot, in_: Input, r: nat)
    requires r < |RUNTIME_NAMES|
    ensures (exists e :: e in MachineDiff(baseline, in_) && IsRuntime(e) && e.name == RUNTIME_NAMES[r]) <==>
              DiffersAt(baseline, in_, r)
    ensures forall e :: e in MachineDiff(baseline, in_) && IsRuntime(e) && e.name == RUNTIME_NAMES[r] ==>
              e.b == Shown(RuntimeInfos(in_.snapshot.runtimes)[r])
  {
    var a, b := baseline, in_.snapshot;
    forall e: Diff.Entry
      ensures e in MachineDiff(baseline, in_) && IsRuntime(e) && e.name == RUNTIME_NAMES[r] <==>
                RuntimeToldAt(e, r, a, b, Diff.BASELINE, in_.name)
    {
      FullDiffTells(a, b, Diff.BASELINE, in_.name, e);
      OnlyRuntimeTold(e, a, b, Diff.BASELINE, in_.name, r);
    }
    hide MachineDiff, Needed, RUNTIME_NAMES, RuntimeInfos;
    ToldExists(RUNTIME_NAMES[r], RuntimeInfos(a.runtimes)[r], RuntimeInfos(b.runtimes)[r],
               Needed(a, b, RUNTIME_NAMES[r]), Diff.BASELINE, in_.name);
  }

  lemma OnlyRuntimeTold(e: Diff.Entry, a: Snapshot, b: Snapshot, nameA: string, nameB: string, r: nat)
    requires r < |RUNTIME_NAMES|
    ensures Told(e, a, b, nameA, nameB) && IsRuntime(e) && e.name == RUNTIME_NAMES[r] <==>
              RuntimeToldAt(e, r, a, b, nameA, nameB)
  {
    CategoriesDiffer();
    hide RUNTIME_NAMES, RuntimeInfos, Needed, RuntimesDiffer, SaysLacking, SaysMajors, Shown;
    if i :| 0 <= i < |RUNTIME_NAMES| && RuntimeToldAt(e, i, a, b, nameA, nameB) && e.name == RUNTIME_NAMES[r] {
      NamesApart(a, i, r);
    }
  }

  lemma CategoriesDiffer()
    ensures "Environment" != "Runtime" && "Port" != "Runtime" && "Env" != "Runtime"
    ensures "Environment" != "Env" && "Port" != "Env" && "Environment" != "Port"
  {
    assert |"Environment"| == 11 && |"Runtime"| == 7 && |"Port"| == 4 && |"Env"| == 3;
  }

  lemma ToldExists(name: string, a: VersionInfo, b: VersionInfo, needed: bool, nameA: string, nameB: string)
    ensures (exists e :: RuntimeTold(e, name, a, b, needed, nameA, nameB)) <==> RuntimesDiffer(a, b)
  {
    hide SaysLacking, SaysMajors, RuntimesDiffer, Shown;
    var lackA := Diff.Entry("Runtime", name, Shown(a), Shown(b), Diff.Critical, SaysLacking(name, nameA));
    var lackB := lackA.(blocker := SaysLacking(name, nameB));
    var majors := lackA.(blocker := SaysMajors(name, a.version, b.version));
    var plain := lackA.(severity := Diff.Difference, blocker := "");
    assert RuntimesDiffer(a, b) ==>
        RuntimeTold(lackA, name, a, b, needed, nameA, nameB) || RuntimeTold(lackB, name, a, b, needed, nameA, nameB)
        || RuntimeTold(majors, name, a, b, needed, nameA, nameB)
        || RuntimeTold(plain, name, a, b, needed, nameA, nameB);
  }

  lemma RuntimeNamesAreNoColumns(r: nat)
    requires r < |RUNTIME_NAMES|
    ensures RUNTIME_NAMES[r] != "Env" && RUNTIME_NAMES[r] != "Ports" && "Env" != "Ports"
    ensures ENV_COLUMN == "Env" && PORTS_COLUMN == "Ports" && OK_CELL == "ok" && CROSS == "\U{274C}"
  {
    assert "Env"[0] == 'E' && |"Env"| == 3 && "Ports"[1] == 'o' && |"Ports"| == 5;
  }

  /** Every runtime entry is about one of the known runtimes. */
  lemma RuntimeEntriesNamed(baseline: Snapshot, in_: Input, e: Diff.Entry)
    requires e in MachineDiff(baseline, in_) && IsRuntime(e)
    ensures exists r :: 0 <= r < |RUNTIME_NAMES| && e.name == RUNTIME_NAMES[r]
  {
    FullDiffTells(baseline, in_.snapshot, Diff.BASELINE, in_.name, e);
    CategoriesDiffer();
    hide RUNTIME_NAMES, RuntimeInfos, Needed, RuntimesDiffer, SaysLacking, SaysMajors, Shown, Diff.FullDiff;
    var r :| 0 <= r < |RUNTIME_NAMES| && RuntimeToldAt(e, r, baseline, in_.snapshot, Diff.BASELINE, in_.name);
    assert e.name == RUNTIME_NAMES[r];
  }

  lemma MachineColumnExactly(baseline: Snapshot, in_: Input, c: string)
    ensures c in MachineColumns(baseline, in_) <==>
              exists r :: 0 <= r < |RUNTIME_NAMES| && c == RUNTIME_NAMES[r] && DiffersAt(baseline, in_, r)
  {
    hide MachineDiff, RUNTIME_NAMES, DiffersAt;
    var es := MachineDiff(baseline, in_);
    if c in MachineColumns(baseline, in_) {
      var i :| 0 <= i < |es| && IsRuntime(es[i]) && es[i].name == c;
      RuntimeEntriesNamed(baseline, in_, es[i]);
      var r :| 0 <= r < |RUNTIME_NAMES| && es[i].name == RUNTIME_NAMES[r];
      RuntimeInDiff(baseline, in_, r);
      assert es[i] in es;
    }
    if r :| 0 <= r < |RUNTIME_NAMES| && c == RUNTIME_NAMES[r] && DiffersAt(baseline, in_, r) {
      RuntimeInDiff(baseline, in_, r);
      var e :| e in es && IsRuntime(e) && e.name == c;
      var i :| 0 <= i < |es| && es[i] == e;
    }
  }

  /** Some machine differs from the baseline at the runtime of that name. */
  ghost predicate DiffersSomewhere(baseline: Snapshot, inputs: seq<Input>, c: string) {
    exists i, r | 0 <= i < |inputs| && 0 <= r < |RUNTIME_NAMES| ::
      c == RUNTIME_NAMES[r] && DiffersAt(baseline, inputs[i], r)
  }

  lemma ColumnExactly(baseline: Snapshot, inputs: seq<Input>, c: string)
    ensures c in AllRuntimeColumns(baseline, inputs) <==> DiffersSomewhere(baseline, inputs, c)
  {
    hide MachineColumns, RUNTIME_NAMES, DiffersAt;
    ColumnsAreTheUnion(baseline, inputs, c);
    forall i | 0 <= i < |inputs| { MachineColumnExactly(baseline, inputs[i], c); }
    if DiffersSomewhere(baseline, inputs, c) {
      var i, r :| 0 <= i < |inputs| && 0 <= r < |RUNTIME_NAMES| && c == RUNTIME_NAMES[r]
        && DiffersAt(baseline, inputs[i], r);
      assert c in MachineColumns(baseline, inputs[i]);
    }
  }

  /** The runtimes that differ on some machine, in byte order, then Env, then Ports. */
  lemma ColumnsSpelledOut(baseline: Snapshot, inputs: seq<Input>, s: Summary) returns (rts: seq<string>)
    requires IsSummary(baseline, inputs, s)
    ensures s.columns == rts + ["Env", "Ports"]
    ensures forall c :: c in rts <==> DiffersSomewhere(baseline, inputs, c)
    ensures forall i, j | 0 <= i < j < |rts| :: BytewiseBefore(rts[i], rts[j])
  {
    RuntimeNamesAreNoColumns(0);
    hide AllRuntimeColumns, StringLess, BytewiseBefore, DiffersSomewhere;
    StringOrder();
    rts := Listing(StringLess, AllRuntimeColumns(baseline, inputs));
    forall c { ColumnExactly(baseline, inputs, c); }
    forall i, j | 0 <= i < j < |rts| ensures BytewiseBefore(rts[i], rts[j]) { StringLessIsBytewise(rts[i], rts[j]); }
  }

  // --------------------------------------------------------------- the cells

  /** A machine's own version beside the cross, a question mark for a blank one. */
  ghost function CrossedOut(shown: string): string { (if shown == "" then "?" else shown) + " \U{274C}" }

  lemma FeedsRuntimeColumn(e: Diff.Entry, name: string)
    requires name != ENV_COLUMN && name != PORTS_COLUMN
    ensures Feeds(e, name) <==> IsRuntime(e) && e.name == name
    ensures IsRuntime(e) ==> CellText(e) == CrossedOut(e.b)
  {
    var shown := if e.b == "" then "?" else e.b;
    assert shown + " " + "\U{274C}" == shown + " \U{274C}";
  }

  lemma FedByRuntime(baseline: Snapshot, in_: Input, r: nat)
    requires r < |RUNTIME_NAMES|
    ensures var es := MachineDiff(baseline, in_);
      && (Fed(es, RUNTIME_NAMES[r]) <==> DiffersAt(baseline, in_, r))
      && forall cell :: CellFrom(es, RUNTIME_NAMES[r], cell) ==>
           cell == CrossedOut(Shown(RuntimeInfos(in_.snapshot.runtimes)[r]))
  {
    hide MachineDiff, DiffersAt, RUNTIME_NAMES, RuntimeInfos, Shown, Feeds, CellText, CrossedOut, IsRuntime;
    RuntimeInDiff(baseline, in_, r);
    RuntimeNamesAreNoColumns(r);
    var es, name := MachineDiff(baseline, in_), RUNTIME_NAMES[r];
    forall i | 0 <= i < |es|
      ensures es[i] in es && (Feeds(es[i], name) <==> IsRuntime(es[i]) && es[i].name == name)
      ensures IsRuntime(es[i]) ==> CellText(es[i]) == CrossedOut(es[i].b)
    {
      FeedsRuntimeColumn(es[i], name);
    }
    if e :| e in es && IsRuntime(e) && e.name == name {
      var i :| 0 <= i < |es| && es[i] == e;
      assert Feeds(es[i], name);
    }
  }

  /** A runtime's cell is ok exactly where the machine agrees with the baseline, else shows its own version. */
  lemma RuntimeCell(baseline: Snapshot, inputs: seq<Input>, s: Summary, i: nat, r: nat)
    requires IsSummary(baseline, inputs, s) && i < |inputs| && r < |RUNTIME_NAMES| && RUNTIME_NAMES[r] in s.columns
    ensures RUNTIME_NAMES[r] in s.machines[i].cells
    ensures s.machines[i].cells[RUNTIME_NAMES[r]] ==
            if DiffersAt(baseline, inputs[i], r) then CrossedOut(Shown(RuntimeInfos(inputs[i].snapshot.runtimes)[r]))
            else "ok"
  {
    FedByRuntime(baseline, inputs[i], r);
    hide MachineDiff, Fed, CellFrom, RUNTIME_NAMES, RuntimeInfos, Shown, CrossedOut, DiffersAt, Columns;
  }

  ghost predicate Apart(a: seq<string>, b: seq<string>) { exists k :: (k in a) != (k in b) }

  ghost predicate KeysDiffer(a: Snapshot, b: Snapshot) { Apart(a.missingKeys, b.missingKeys) }

  ghost predicate PortsDiffer(a: Snapshot, b: Snapshot) {
    exists p :: p in a.ports && p in b.ports && a.ports[p].listening != b.ports[p].listening
  }

  ghost predicate HasMore(a: seq<string>, b: seq<string>) { exists k | k in a :: k !in b }

  lemma EnvToldNeeds(e: Diff.Entry, a: seq<string>, b: seq<string>)
    requires EnvTold(e, a, b)
    ensures HasMore(a, b) || HasMore(b, a)
  {
    hide Join, Diff.Subtract;
  }

  lemma EnvToldGiven(a: seq<string>, b: seq<string>) returns (e: Diff.Entry)
    requires HasMore(a, b) || HasMore(b, a)
    ensures EnvTold(e, a, b)
  {
    hide Join, Diff.Subtract;
    if HasMore(b, a) {
      e := Diff.Entry("Env", ".env keys", "present", "missing: " + Join(Diff.Subtract(b, a), ", "), Diff.Critical,
                      "required environment variables absent on B: " + Join(Diff.Subtract(b, a), ", "));
    } else {
      e := Diff.Entry("Env", ".env keys", "missing: " + Join(Diff.Subtract(a, b), ", "), "present", Diff.Critical,
                      "required environment variables absent on A: " + Join(Diff.Subtract(a, b), ", "));
    }
  }

  lemma EnvToldExists(a: seq<string>, b: seq<string>)
    ensures (exists e :: EnvTold(e, a, b)) <==> Apart(a, b)
  {
    DifferOneWay(a, b);
    hide Apart, EnvTold, HasMore;
    if e :| EnvTold(e, a, b) { EnvToldNeeds(e, a, b); }
    if Apart(a, b) { var e := EnvToldGiven(a, b); }
  }

  lemma DifferOneWay(a: seq<string>, b: seq<string>)
    ensures Apart(a, b) <==> HasMore(a, b) || HasMore(b, a)
  {
    if k :| (k in a) != (k in b) {
      assert if k in a then HasMore(a, b) else HasMore(b, a);
    }
    if k :| k in b && k !in a { assert (k in a) != (k in b); }
    if k :| k in a && k !in b { assert (k in a) != (k in b); }
  }

  lemma PortToldExists(p: int, a: map<int, PortInfo>, b: map<int, PortInfo>)
    ensures (exists e :: PortTold(e, p, a, b)) <==> p in a && p in b && a[p].listening != b[p].listening
  {
    hide Decimal.FormatInt, Running;
    if p in a && p in b && a[p].listening != b[p].listening {
      var name := Decimal.FormatInt(p) + " (" + (if a[p].service != "" then a[p].service else b[p].service) + ")";
      assert PortTold(Diff.Entry("Port", name, Running(a[p].listening), Running(b[p].listening), Diff.Difference, ""),
          p, a, b);
    }
  }

  lemma EnvAndPortEntries(a: Snapshot, b: Snapshot, nameA: string, nameB: string, e: Diff.Entry)
    ensures Told(e, a, b, nameA, nameB) && IsEnv(e) <==> EnvTold(e, a.missingKeys, b.missingKeys)
    ensures Told(e, a, b, nameA, nameB) && IsPort(e) <==> exists p :: PortTold(e, p, a.ports, b.ports)
  {
    CategoriesDiffer();
    hide RUNTIME_NAMES, RuntimeInfos, Needed, RuntimesDiffer, SaysLacking, SaysMajors, Shown, Running;
  }

  lemma EnvAndPortsInDiff(baseline: Snapshot, in_: Input)
    ensures (exists e :: e in MachineDiff(baseline, in_) && IsEnv(e)) <==> KeysDiffer(baseline, in_.snapshot)
    ensures (exists e :: e in MachineDiff(baseline, in_) && IsPort(e)) <==> PortsDiffer(baseline, in_.snapshot)
  {
    hide EnvTold, PortTold, Told, Diff.FullDiff, IsEnv, IsPort;
    var a, b := baseline, in_.snapshot;
    EnvToldExists(a.missingKeys, b.missingKeys);
    forall p
      ensures (exists e :: PortTold(e, p, a.ports, b.ports)) <==>
                p in a.ports && p in b.ports && a.ports[p].listening != b.ports[p].listening
    {
      PortToldExists(p, a.ports, b.ports);
    }
    forall e: Diff.Entry
      ensures e in MachineDiff(baseline, in_) && IsEnv(e) <==> EnvTold(e, a.missingKeys, b.missingKeys)
      ensures e in MachineDiff(baseline, in_) && IsPort(e) <==> exists p :: PortTold(e, p, a.ports, b.ports)
    {
      FullDiffTells(a, b, Diff.BASELINE, in_.name, e);
      EnvAndPortEntries(a, b, Diff.BASELINE, in_.name, e);
    }
    hide MachineDiff;
    if e :| e in MachineDiff(baseline, in_) && IsPort(e) {
      var p :| PortTold(e, p, a.ports, b.ports);
      PortToldExists(p, a.ports, b.ports);
    }
    if PortsDiffer(a, b) {
      var p :| p in a.ports && p in b.ports && a.ports[p].listening != b.ports[p].listening;
      PortToldExists(p, a.ports, b.ports);
      var e :| PortTold(e, p, a.ports, b.ports);
      assert e in MachineDiff(baseline, in_) && IsPort(e);
    }
  }

  lemma FedByEnvAndPorts(baseline: Snapshot, in_: Input)
    ensures var es := MachineDiff(baseline, in_);
      && (Fed(es, "Env") <==> KeysDiffer(baseline, in_.snapshot))
      && (Fed(es, "Ports") <==> PortsDiffer(baseline, in_.snapshot))
      && forall cell :: CellFrom(es, "Env", cell) || CellFrom(es, "Ports", cell) ==> cell == "\U{274C}"
  {
    hide *;
    EnvAndPortsInDiff(baseline, in_);
    FeedsEnvAndPorts(baseline, in_);
  }

  lemma FeedsEnvAndPorts(baseline: Snapshot, in_: Input)
    ensures var es := MachineDiff(baseline, in_);
      && (Fed(es, "Env") <==> exists e :: e in es && IsEnv(e))
      && (Fed(es, "Ports") <==> exists e :: e in es && IsPort(e))
      && forall cell :: CellFrom(es, "Env", cell) || CellFrom(es, "Ports", cell) ==> cell == "\U{274C}"
  {
    var es := MachineDiff(baseline, in_);
    forall i | 0 <= i < |es|
      ensures Feeds(es[i], "Env") <==> IsEnv(es[i])
      ensures Feeds(es[i], "Ports") <==> IsPort(es[i])
    {
      if IsRuntime(es[i]) {
        RuntimeEntriesNamed(baseline, in_, es[i]);
        var r :| 0 <= r < |RUNTIME_NAMES| && es[i].name == RUNTIME_NAMES[r];
        RuntimeNamesAreNoColumns(r);
      }
      RuntimeNamesAreNoColumns(0);
      KindsApart(es[i]);
    }
    forall i | 0 <= i < |es| { KindsApart(es[i]); }
    hide MachineDiff, IsRuntime, IsEnv, IsPort, RUNTIME_NAMES, Feeds;
    if e :| e in es && IsEnv(e) { var i :| 0 <= i < |es| && es[i] == e; assert Feeds(es[i], "Env"); }
    if e :| e in es && IsPort(e) { var i :| 0 <= i < |es| && es[i] == e; assert Feeds(es[i], "Ports"); }
  }

  /** The Env and Ports cells: a cross exactly where the missing keys, or a port both probed, differ. */
  lemma EnvAndPortsCells(baseline: Snapshot, inputs: seq<Input>, s: Summary, i: nat)
    requires IsSummary(baseline, inputs, s) && i < |inputs|
    ensures "Env" in s.machines[i].cells && "Ports" in s.machines[i].cells
    ensures s.machines[i].cells["Env"] == if KeysDiffer(baseline, inputs[i].snapshot) then "\U{274C}" else "ok"
    ensures s.machines[i].cells["Ports"] == if PortsDiffer(baseline, inputs[i].snapshot) then "\U{274C}" else "ok"
  {
    FedByEnvAndPorts(baseline, inputs[i]);
    var rts := ColumnsSpelledOut(baseline, inputs, s);
    assert s.columns[|rts|] == "Env" && s.columns[|rts| + 1] == "Ports";
    RuntimeNamesAreNoColumns(0);
    hide MachineDiff, Fed, CellFrom, Columns, KeysDiffer, PortsDiffer;
  }

  /** A machine's blockers: exactly the nonempty texts of its findings, each once. */
  lemma MachineBlockersExactly(baseline: Snapshot, inputs: seq<Input>, s: Summary, i: nat, text: string)
    requires IsSummary(baseline, inputs, s) && i < |inputs|
    ensures text in s.machines[i].blockers <==>
              text != "" &&
              exists e :: Told(e, baseline, inputs[i].snapshot, "baseline", inputs[i].name) && e.blocker == text
    ensures s.machines[i].name == inputs[i].name
  {
    var in_ := inputs[i];
    var es := MachineDiff(baseline, in_);
    assert Diff.BASELINE == "baseline";
    forall e: Diff.Entry
      ensures e in es <==> Told(e, baseline, in_.snapshot, "baseline", in_.name)
    {
      FullDiffTells(baseline, in_.snapshot, "baseline", in_.name, e);
    }
    hide MachineDiff, Told;
    var texts := Diff.BlockerTexts(es);
    if text in texts {
      var k :| 0 <= k < |texts| && texts[k] == text;
      assert es[k] in es;
    }
    if e :| e in es && e.blocker == text {
      var k :| 0 <= k < |es| && es[k] == e;
      assert texts[k] == text;
    }
  }
}
