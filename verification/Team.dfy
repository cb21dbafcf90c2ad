/** Many machines against one baseline: columns, cells and a ranking of shared blockers. */
module Team {
  import opened Text
  import opened Sorting
  import opened Model
  import opened Diff
  import Reports

  datatype Input = Input(name: string, snapshot: Snapshot)

  datatype MachineResult = MachineResult(name: string, blockers: seq<string>, cells: map<string, string>, ok: bool)

  datatype BlockerCount = BlockerCount(blocker: string, count: nat)

  datatype Summary = Summary(columns: seq<string>, machines: seq<MachineResult>, commonBlockers: seq<BlockerCount>)

  const ON := " on "
  const ENV_COLUMN := "Env"
  const PORTS_COLUMN := "Ports"
  const CROSS := "\U{274C}"

  ghost function MachineDiff(baseline: Snapshot, in_: Input): seq<Entry> {
    FullDiff(baseline, in_.snapshot, BASELINE, in_.name)
  }

  // ------------------------------------------------------ blocker tallies

  /** Cuts a blocker at its first " on ", which drops the machine's name. */
  function NormalizeBlocker(b: string): string {
    var i := Index(b, ON);
    if i >= 0 then Trim(b[..i]) else b
  }

  function NormalizeAll(bs: seq<string>): (r: seq<string>)
    ensures |r| == |bs| && forall i | 0 <= i < |bs| :: r[i] == NormalizeBlocker(bs[i])
  {
    seq(|bs|, i requires 0 <= i < |bs| => NormalizeBlocker(bs[i]))
  }

  ghost function MachineBlockers(baseline: Snapshot, in_: Input): seq<string> {
    Reports.Dedup(BlockerTexts(MachineDiff(baseline, in_)))
  }

  /** Every machine's deduplicated blockers, normalized, one machine after the other. */
  ghost function AllBlockers(baseline: Snapshot, inputs: seq<Input>): seq<string> {
    if inputs == [] then []
    else AllBlockers(baseline, inputs[..|inputs| - 1]) + NormalizeAll(MachineBlockers(baseline, inputs[|inputs| - 1]))
  }

  /** How often each text occurs. */
  ghost predicate Tallies(tally: map<string, nat>, texts: seq<string>) {
    (forall k :: k in tally <==> k in texts) && (forall k | k in tally :: tally[k] == multiset(texts)[k])
  }

  method AddToTally(tally: map<string, nat>, blockers: seq<string>, ghost before: seq<string>)
      returns (r: map<string, nat>)
    requires Tallies(tally, before)
    ensures Tallies(r, before + NormalizeAll(blockers))
  {
    r := tally;
    hide NormalizeBlocker, Tallies;
    ghost var norms := NormalizeAll(blockers);
    assert before + norms[..0] == before;
    for i := 0 to |blockers|
      invariant Tallies(r, before + norms[..i])
    {
      assert before + norms[..i + 1] == before + norms[..i] + [norms[i]];
      var k := NormalizeBlocker(blockers[i]);
      TallyStep(r, before + norms[..i], k);
      r := r[k := if k in r then r[k] + 1 else 1];
    }
    assert norms[..|blockers|] == norms;
  }

  lemma TallyStep(tally: map<string, nat>, texts: seq<string>, k: string)
    requires Tallies(tally, texts)
    ensures Tallies(tally[k := if k in tally then tally[k] + 1 else 1], texts + [k])
  {
    assert k in texts <==> k in multiset(texts);
  }

  /** More machines first, then by text. */
  predicate BlockerLess(x: BlockerCount, y: BlockerCount) {
    x.count > y.count || (x.count == y.count && StringLess(x.blocker, y.blocker))
  }

  lemma BlockerOrder()
    ensures StrictOrder(BlockerLess)
  {
    StringOrder();
  }

  function CountsOf(tally: map<string, nat>): set<BlockerCount> {
    set k | k in tally :: BlockerCount(k, tally[k])
  }

  ghost function Ranking(tally: map<string, nat>): (r: seq<BlockerCount>)
    ensures Ascending(BlockerLess, r)
    ensures forall c :: c in r <==> c.blocker in tally && tally[c.blocker] == c.count
  {
    BlockerOrder();
    Listing(BlockerLess, CountsOf(tally))
  }

  method RankBlockers(tally: map<string, nat>) returns (out: seq<BlockerCount>)
    ensures out == Ranking(tally)
  {
    BlockerOrder();
    out := SortElements(BlockerLess, CountsOf(tally));
  }

  function TotalCount(counts: seq<BlockerCount>): nat {
    if counts == [] then 0 else counts[0].count + TotalCount(counts[1..])
  }

  lemma {:induction false} TotalIsSize(counts: seq<BlockerCount>, m: multiset<string>)
    requires forall i, j | 0 <= i < j < |counts| :: counts[i].blocker != counts[j].blocker
    requires forall i | 0 <= i < |counts| :: counts[i].count == m[counts[i].blocker]
    requires forall k | k in m :: exists i | 0 <= i < |counts| :: counts[i].blocker == k
    ensures TotalCount(counts) == |m|
  {
    if counts == [] {
      assert m == multiset{};
    } else {
      var rest, k := counts[1..], counts[0].blocker;
      var m' := m[k := 0];
      forall x | x in m'
        ensures exists i | 0 <= i < |rest| :: rest[i].blocker == x
      {
        assert x in m && x != k;
        var i :| 0 <= i < |counts| && counts[i].blocker == x;
        assert rest[i - 1].blocker == x;
      }
      TotalIsSize(rest, m');
    }
  }

  /** No blocker is lost or invented: the counts add up to all per-machine blockers. */
  lemma RankingConservesBlockers(tally: map<string, nat>, texts: seq<string>)
    requires Tallies(tally, texts)
    ensures TotalCount(Ranking(tally)) == |texts|
  {
    var r := Ranking(tally);
    BlockerOrder();
    forall i, j | 0 <= i < j < |r|
      ensures r[i].blocker != r[j].blocker
    {
      assert r[i] in r && r[j] in r && BlockerLess(r[i], r[j]);
      StringLessIrreflexive(r[i].blocker);
    }
    forall k | k in multiset(texts)
      ensures exists i | 0 <= i < |r| :: r[i].blocker == k
    {
      assert k in tally;
      assert BlockerCount(k, tally[k]) in r;
    }
    assert forall i | 0 <= i < |r| :: r[i] in r;
    TotalIsSize(r, multiset(texts));
  }

  ghost function TotalBlockers(baseline: Snapshot, inputs: seq<Input>): nat {
    if inputs == [] then 0
    else TotalBlockers(baseline, inputs[..|inputs| - 1]) + |MachineBlockers(baseline, inputs[|inputs| - 1])|
  }

  lemma {:induction false} AllBlockersLength(baseline: Snapshot, inputs: seq<Input>)
    ensures |AllBlockers(baseline, inputs)| == TotalBlockers(baseline, inputs)
  {
    if inputs != [] { AllBlockersLength(baseline, inputs[..|inputs| - 1]); }
  }

  // ------------------------------------------------------ columns and cells

  predicate IsRuntime(e: Entry) { e.category == "Runtime" }

  predicate IsEnv(e: Entry) { e.category == "Env" }

  predicate IsPort(e: Entry) { e.category == "Port" }

  lemma KindsApart(e: Entry)
    ensures !(IsRuntime(e) && IsEnv(e)) && !(IsRuntime(e) && IsPort(e)) && !(IsEnv(e) && IsPort(e))
  {
    assert |"Runtime"| == 7 && |"Env"| == 3 && |"Port"| == 4;
  }

  function RuntimeColumns(es: seq<Entry>): set<string> {
    set i | 0 <= i < |es| && IsRuntime(es[i]) :: es[i].name
  }

  ghost function MachineColumns(baseline: Snapshot, in_: Input): set<string> {
    RuntimeColumns(MachineDiff(baseline, in_))
  }

  /** Every runtime that differs on some machine. */
  ghost function AllRuntimeColumns(baseline: Snapshot, inputs: seq<Input>): set<string> {
    if inputs == [] then {}
    else AllRuntimeColumns(baseline, inputs[..|inputs| - 1]) + MachineColumns(baseline, inputs[|inputs| - 1])
  }

  lemma {:induction false} ColumnsAreTheUnion(baseline: Snapshot, inputs: seq<Input>, c: string)
    ensures c in AllRuntimeColumns(baseline, inputs) <==>
              exists i | 0 <= i < |inputs| :: c in MachineColumns(baseline, inputs[i])
  {
    hide MachineColumns;
    if inputs != [] {
      var front := inputs[..|inputs| - 1];
      ColumnsAreTheUnion(baseline, front, c);
      assert forall i | 0 <= i < |front| :: front[i] == inputs[i];
    }
  }

  ghost function Columns(baseline: Snapshot, inputs: seq<Input>): seq<string> {
    StringOrder();
    Listing(StringLess, AllRuntimeColumns(baseline, inputs)) + [ENV_COLUMN, PORTS_COLUMN]
  }

  function CellFor(e: Entry): string { (if e.b == "" then "?" else e.b) + " " + CROSS }

  /** Which entries speak for a column. */
  predicate Feeds(e: Entry, column: string) {
    (IsRuntime(e) && column == e.name) || (IsEnv(e) && column == ENV_COLUMN) || (IsPort(e) && column == PORTS_COLUMN)
  }

  predicate Fed(es: seq<Entry>, column: string) { exists i | 0 <= i < |es| :: Feeds(es[i], column) }

  function CellText(e: Entry): string { if IsRuntime(e) then CellFor(e) else CROSS }

  ghost predicate CellFrom(es: seq<Entry>, column: string, cell: string) {
    exists i | 0 <= i < |es| :: Feeds(es[i], column) && cell == CellText(es[i])
  }

  /** The cells before the ok markers: exactly the fed columns, each with the text of a feeding entry. */
  ghost predicate IssueCells(es: seq<Entry>, cells: map<string, string>) {
    (forall c :: c in cells <==> Fed(es, c)) && (forall c | c in cells :: CellFrom(es, c, cells[c]))
  }

  /** What the loop knows after some entries: the runtime cells, and whether env or port entries came by. */
  ghost predicate Seen(es: seq<Entry>, cells: map<string, string>, envIssue: bool, portIssue: bool) {
    && (forall c :: c in cells <==> c in RuntimeColumns(es))
    && (forall c | c in cells ::
          exists k | 0 <= k < |es| :: IsRuntime(es[k]) && es[k].name == c && cells[c] == CellFor(es[k]))
    && (envIssue <==> exists k | 0 <= k < |es| :: IsEnv(es[k]))
    && (portIssue <==> exists k | 0 <= k < |es| :: IsPort(es[k]))
  }

  /** The loop over one machine's entries, which also gathers its columns. */
  method ScanEntries(es: seq<Entry>)
      returns (cells: map<string, string>, columns: set<string>, envIssue: bool, portIssue: bool)
    ensures Seen(es, cells, envIssue, portIssue) && columns == RuntimeColumns(es)
  {
    cells, columns, envIssue, portIssue := map[], {}, false, false;
    hide IsRuntime, IsEnv, IsPort, CellFor;
    for i := 0 to |es|
      invariant Seen(es[..i], cells, envIssue, portIssue) && columns == RuntimeColumns(es[..i])
    {
      KindsApart(es[i]);
      ghost var before, after := es[..i], es[..i + 1];
      assert after[i] == es[i] && forall k | 0 <= k < i :: after[k] == before[k];
      if IsRuntime(es[i]) {
        columns := columns + {es[i].name};
        cells := cells[es[i].name := CellFor(es[i])];
      } else if IsEnv(es[i]) {
        envIssue := true;
      } else if IsPort(es[i]) {
        portIssue := true;
      }
    }
    assert es[..|es|] == es;
  }

  method CollectCells(es: seq<Entry>) returns (cells: map<string, string>, columns: set<string>)
    ensures IssueCells(es, cells)
    ensures columns == RuntimeColumns(es)
  {
    var envIssue, portIssue: bool;
    cells, columns, envIssue, portIssue := ScanEntries(es);
    hide IsEnv, IsPort, CellFor;
    ghost var scanned := cells;
    if envIssue {
      cells := cells[ENV_COLUMN := CROSS];
    }
    if portIssue {
      cells := cells[PORTS_COLUMN := CROSS];
    }
    IssuesFromScan(es, scanned, cells, envIssue, portIssue);
  }

  lemma IssuesFromScan(es: seq<Entry>, scanned: map<string, string>, cells: map<string, string>,
      envIssue: bool, portIssue: bool)
    requires Seen(es, scanned, envIssue, portIssue)
    requires var withEnv := if envIssue then scanned[ENV_COLUMN := CROSS] else scanned;
      cells == if portIssue then withEnv[PORTS_COLUMN := CROSS] else withEnv
    ensures IssueCells(es, cells)
  {
    hide CellFor;
    forall c
      ensures c in cells <==> Fed(es, c)
    {
      FedBy(es, c);
    }
    forall c | c in cells
      ensures CellFrom(es, c, cells[c])
    {
      CellCause(es, scanned, cells, envIssue, portIssue, c);
    }
  }

  lemma FedBy(es: seq<Entry>, c: string)
    ensures Fed(es, c) <==>
              || c in RuntimeColumns(es)
              || (c == ENV_COLUMN && exists k | 0 <= k < |es| :: IsEnv(es[k]))
              || (c == PORTS_COLUMN && exists k | 0 <= k < |es| :: IsPort(es[k]))
  {
    hide IsRuntime, IsEnv, IsPort;
    if c in RuntimeColumns(es) {
      var k :| 0 <= k < |es| && IsRuntime(es[k]) && es[k].name == c;
      assert Feeds(es[k], c);
    }
    if c == ENV_COLUMN && exists k | 0 <= k < |es| :: IsEnv(es[k]) {
      var k :| 0 <= k < |es| && IsEnv(es[k]);
      assert Feeds(es[k], c);
    }
    if c == PORTS_COLUMN && exists k | 0 <= k < |es| :: IsPort(es[k]) {
      var k :| 0 <= k < |es| && IsPort(es[k]);
      assert Feeds(es[k], c);
    }
  }

  lemma CellCause(es: seq<Entry>, scanned: map<string, string>, cells: map<string, string>, envIssue: bool,
      portIssue: bool, c: string)
    requires Seen(es, scanned, envIssue, portIssue) && c in cells
    requires var withEnv := if envIssue then scanned[ENV_COLUMN := CROSS] else scanned;
      cells == if portIssue then withEnv[PORTS_COLUMN := CROSS] else withEnv
    ensures CellFrom(es, c, cells[c])
  {
    hide CellFor;
    var k: nat;
    if portIssue && c == PORTS_COLUMN {
      k :| 0 <= k < |es| && IsPort(es[k]);
    } else if envIssue && c == ENV_COLUMN {
      k :| 0 <= k < |es| && IsEnv(es[k]);
    } else {
      k :| 0 <= k < |es| && IsRuntime(es[k]) && es[k].name == c && scanned[c] == CellFor(es[k]);
    }
    KindsApart(es[k]);
    hide IsRuntime, IsEnv, IsPort;
    assert Feeds(es[k], c) && cells[c] == CellText(es[k]);
  }

  const OK_CELL := "ok"

  /** A machine's finished row: a cell for every column, and ok exactly where nothing feeds it. */
  ghost predicate RowComplete(es: seq<Entry>, columns: seq<string>, cells: map<string, string>) {
    forall c | c in columns ::
      c in cells && (cells[c] == OK_CELL <==> !Fed(es, c)) && (cells[c] != OK_CELL ==> CellFrom(es, c, cells[c]))
  }

  lemma CellTextNotOk(e: Entry)
    ensures CellText(e) != OK_CELL
  {
    var t := CellText(e);
    assert t[|t| - 1] == '\U{274C}';
  }

  method FillOk(cells: map<string, string>, columns: seq<string>, ghost es: seq<Entry>) returns (r: map<string, string>)
    requires IssueCells(es, cells)
    ensures RowComplete(es, columns, r)
  {
    r := cells;
    for i := 0 to |columns|
      invariant forall c :: c in r <==> c in cells || c in columns[..i]
      invariant forall c | c in r :: r[c] == if c in cells then cells[c] else OK_CELL
    {
      assert columns[..i + 1] == columns[..i] + [columns[i]];
      if columns[i] !in r {
        r := r[columns[i] := OK_CELL];
      }
    }
    assert columns[..|columns|] == columns;
    forall c | c in columns
      ensures c in r && (r[c] == OK_CELL <==> !Fed(es, c)) && (r[c] != OK_CELL ==> CellFrom(es, c, r[c]))
    {
      if c in cells {
        var i :| 0 <= i < |es| && Feeds(es[i], c) && cells[c] == CellText(es[i]);
        CellTextNotOk(es[i]);
      }
    }
  }

  // ------------------------------------------------------------- the build

  ghost predicate MachineSound(baseline: Snapshot, in_: Input, m: MachineResult) {
    && m.name == in_.name
    && m.blockers == MachineBlockers(baseline, in_)
    && m.ok == !HasDifferences(MachineDiff(baseline, in_))
  }

  ghost predicate IsSummary(baseline: Snapshot, inputs: seq<Input>, s: Summary) {
    && s.columns == Columns(baseline, inputs)
    && |s.machines| == |inputs|
    && (forall i | 0 <= i < |inputs| ::
          && MachineSound(baseline, inputs[i], s.machines[i])
          && RowComplete(MachineDiff(baseline, inputs[i]), s.columns, s.machines[i].cells))
    && exists tally :: Tallies(tally, AllBlockers(baseline, inputs)) && s.commonBlockers == Ranking(tally)
  }

  method CompareMachine(baseline: Snapshot, in_: Input) returns (m: MachineResult, columns: set<string>)
    ensures Compared(baseline, in_, m) && columns == MachineColumns(baseline, in_)
  {
    var res := new DiffResult(baseline, in_.snapshot, BASELINE, in_.name);
    res.ApplyProjectContext(baseline, in_.snapshot);
    var cells, cols := CollectCells(res.entries);
    var blockers := res.Blockers();
    var any := res.AnyDifference();
    columns := cols;
    m := MachineResult(in_.name, blockers, cells, !any);
  }

  ghost predicate Compared(baseline: Snapshot, in_: Input, m: MachineResult) {
    MachineSound(baseline, in_, m) && IssueCells(MachineDiff(baseline, in_), m.cells)
  }

  ghost predicate AllCompared(baseline: Snapshot, inputs: seq<Input>, ms: seq<MachineResult>) {
    |ms| == |inputs| && forall k | 0 <= k < |inputs| :: Compared(baseline, inputs[k], ms[k])
  }

  lemma ComparedStep(baseline: Snapshot, inputs: seq<Input>, ms: seq<MachineResult>, in_: Input, m: MachineResult)
    requires AllCompared(baseline, inputs, ms) && Compared(baseline, in_, m)
    ensures AllCompared(baseline, inputs + [in_], ms + [m])
  {
  }

  lemma BlockersStep(baseline: Snapshot, inputs: seq<Input>, in_: Input)
    ensures AllBlockers(baseline, inputs + [in_])
         == AllBlockers(baseline, inputs) + NormalizeAll(MachineBlockers(baseline, in_))
    ensures AllRuntimeColumns(baseline, inputs + [in_])
         == AllRuntimeColumns(baseline, inputs) + MachineColumns(baseline, in_)
  {
    assert (inputs + [in_])[..|inputs|] == inputs;
  }

  lemma SoundBlockers(baseline: Snapshot, in_: Input, m: MachineResult)
    requires Compared(baseline, in_, m)
    ensures m.blockers == MachineBlockers(baseline, in_)
  {
  }

  /** The comparing loop: results, the union of their runtime columns, and the running tally. */
  method CompareAll(baseline: Snapshot, inputs: seq<Input>)
      returns (machines: seq<MachineResult>, runtimeCols: set<string>, tally: map<string, nat>)
    ensures AllCompared(baseline, inputs, machines)
    ensures runtimeCols == AllRuntimeColumns(baseline, inputs)
    ensures Tallies(tally, AllBlockers(baseline, inputs))
  {
    hide MachineDiff, MachineBlockers, MachineColumns, Compared;
    machines, runtimeCols, tally := [], {}, map[];
    for i := 0 to |inputs|
      invariant AllCompared(baseline, inputs[..i], machines)
      invariant runtimeCols == AllRuntimeColumns(baseline, inputs[..i])
      invariant Tallies(tally, AllBlockers(baseline, inputs[..i]))
    {
      ghost var before := inputs[..i];
      var m, cols := CompareMachine(baseline, inputs[i]);
      assert inputs[..i + 1] == before + [inputs[i]];
      ComparedStep(baseline, before, machines, inputs[i], m);
      BlockersStep(baseline, before, inputs[i]);
      SoundBlockers(baseline, inputs[i], m);
      tally := AddToTally(tally, m.blockers, AllBlockers(baseline, before));
      runtimeCols := runtimeCols + cols;
      machines := machines + [m];
    }
    assert inputs[..|inputs|] == inputs;
  }

  /** The second loop: ok markers in every machine's row, in place. */
  method FillAll(baseline: Snapshot, inputs: seq<Input>, compared: seq<MachineResult>, columns: seq<string>)
      returns (machines: seq<MachineResult>)
    requires AllCompared(baseline, inputs, compared)
    ensures |machines| == |inputs|
    ensures forall k | 0 <= k < |inputs| ::
              MachineSound(baseline, inputs[k], machines[k])
                  && RowComplete(MachineDiff(baseline, inputs[k]), columns, machines[k].cells)
  {
    machines := compared;
    hide MachineDiff, MachineBlockers;
    for i := 0 to |machines|
      invariant |machines| == |inputs|
      invariant forall k | 0 <= k < i ::
                  MachineSound(baseline, inputs[k], machines[k])
                      && RowComplete(MachineDiff(baseline, inputs[k]), columns, machines[k].cells)
      invariant forall k | i <= k < |inputs| :: machines[k] == compared[k]
    {
      var cells := FillOk(machines[i].cells, columns, MachineDiff(baseline, inputs[i]));
      machines := machines[i := machines[i].(cells := cells)];
    }
  }

  method Build(baseline: Snapshot, inputs: seq<Input>) returns (s: Summary)
    ensures IsSummary(baseline, inputs, s)
  {
    var compared, runtimeCols, tally := CompareAll(baseline, inputs);
    StringOrder();
    var rts := SortElements(StringLess, runtimeCols);
    var columns := rts + [ENV_COLUMN, PORTS_COLUMN];
    var machines := FillAll(baseline, inputs, compared, columns);
    var ranked := RankBlockers(tally);
    s := Summary(columns, machines, ranked);
  }

  /** What a reader of the table can rely on. */
  lemma SummaryProperties(baseline: Snapshot, inputs: seq<Input>, s: Summary)
    requires IsSummary(baseline, inputs, s)
    ensures TotalCount(s.commonBlockers) == TotalBlockers(baseline, inputs)
    ensures Ascending(BlockerLess, s.commonBlockers)
    ensures forall i, j | 0 <= i < j < |s.commonBlockers| :: s.commonBlockers[i].blocker != s.commonBlockers[j].blocker
    ensures forall i | 0 <= i < |inputs| :: s.machines[i].ok <==> NoDrift(baseline, inputs[i].snapshot)
  {
    var tally :| Tallies(tally, AllBlockers(baseline, inputs)) && s.commonBlockers == Ranking(tally);
    RankingConservesBlockers(tally, AllBlockers(baseline, inputs));
    AllBlockersLength(baseline, inputs);
    forall i | 0 <= i < |inputs|
      ensures s.machines[i].ok <==> NoDrift(baseline, inputs[i].snapshot)
    {
      FullDiffVerdict(baseline, inputs[i].snapshot, BASELINE, inputs[i].name);
    }
    BlockerOrder();
    var r := s.commonBlockers;
    forall i, j | 0 <= i < j < |r|
      ensures r[i].blocker != r[j].blocker
    {
      assert r[i] in r && r[j] in r && BlockerLess(r[i], r[j]);
      StringLessIrreflexive(r[i].blocker);
    }
  }
}
