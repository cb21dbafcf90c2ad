/** Named inputs on which a promise fails, one for each exact condition proved elsewhere. */
module Witnesses {
  import opened Prelude
  import opened Text
  import opened Decimal
  import opened Model
  import opened EnvText
  import opened EnvKeys
  import opened Checks
  import opened FixPlans
  import opened FixLoop
  import Diff
  import EnvClassify
  import FixEvery
  import Team
  import TeamCounts
  import VersionReq
  import Versions

  // ------------------------------------------------------------ env text

  /** A one-line text that reads raw, an '=' and a value. */
  lemma KeysOfPairLine(raw: string, val: string)
    requires NoEquals(raw) && OneLine(raw) && OneLine(val) && (val != "" ==> !IsSpace(val[|val| - 1]))
    ensures ReadKeys(raw + "=" + val) == Keys(KeyBefore(raw)) == ReadKeys(raw + "=" + val + "\n")
  {
    hide ReadKeys, ParseLine, Trim, TrimLeft, Bare;
    OneLineConcat(raw, "=");
    OneLineConcat(raw + "=", val);
    ReadKeysLine(raw + "=" + val);
    ParseWritten(raw, val);
  }

  lemma ExportedTwiceText()
    ensures EXPORT + EXPORT + "A" + "=" + "1" == "export export A=1" && EXPORT + "A" == "export A"
    ensures EXPORT + "#A" + "=" + "1" == "export #A=1"
  {
  }

  lemma ExportedTwice()
    ensures ReadKeys("export export A=1") == ["export A"] && ReadKeys(CopyText("export export A=1")) == ["A"]
  {
    ExportedTwiceText();
    LettersAreKeys();
    hide ReadKeys, CopyText;
    LosesExport("A", "1");
  }

  lemma ExportedComment()
    ensures ReadKeys("export #A=1") == ["#A"] && ReadKeys(CopyText("export #A=1")) == []
  {
    ExportedTwiceText();
    CommentKey();
    hide ReadKeys, CopyText, KeyBefore;
    CopiedWithoutExport("#A", "1");
  }

  lemma CommentKey()
    ensures Plain("#A") && KeyBefore("#A") == None
  {
    TrimLeftUnique("#A", 0);
    assert "#A"[0..] == "#A";
  }

  lemma LosesExport(k: string, val: string)
    requires Readable(k) && OneLine(val) && val != "" && !IsSpace(val[0]) && !IsSpace(val[|val| - 1])
    ensures ReadKeys(EXPORT + EXPORT + k + "=" + val) == [EXPORT + k]
              && ReadKeys(CopyText(EXPORT + EXPORT + k + "=" + val)) == [k]
  {
    ExportedShape(k);
    Assoc(EXPORT, EXPORT, k);
    KeyOfExported(k);
    hide ReadKeys, CopyText, KeyBefore;
    CopiedWithoutExport(EXPORT + k, val);
  }

  lemma ExportedShape(k: string)
    requires Plain(k)
    ensures Plain(EXPORT + k)
  {
    var x := EXPORT + k;
    assert x[0] == 'e' && x[|x| - 1] == k[|k| - 1];
    assert forall i | 0 <= i < |x| :: x[i] == if i < |EXPORT| then EXPORT[i] else k[i - |EXPORT|];
  }

  lemma KeyOfExported(k: string)
    requires Plain(k)
    ensures KeyBefore(EXPORT + k) == Some(k) && Keys(KeyBefore(EXPORT + k)) == [k]
  {
    hide Trim, TrimLeft, Bare;
    ExportedParts(k);
    TrimOfTrimmed(k);
  }

  lemma ExportedParts(k: string)
    ensures var x := EXPORT + k; x != "" && x[0] == 'e' && Bare(x) == k && TrimLeft(x) == x
  {
    BareOfExport(k);
    TrimLeftOfVisible(EXPORT + k);
    hide Bare, TrimLeft;
    assert (EXPORT + k)[0] == EXPORT[0];
  }

  lemma BareOfExport(k: string)
    ensures Bare(EXPORT + k) == k && !IsSpace((EXPORT + k)[0])
  {
    var x := EXPORT + k;
    assert x[..|EXPORT|] == EXPORT && x[|EXPORT|..] == k;
  }

  lemma TrimLeftOfVisible(s: string)
    requires s != "" && !IsSpace(s[0])
    ensures TrimLeft(s) == s
  {
    hide TrimLeft;
    TrimLeftUnique(s, 0);
    assert s[0..] == s;
  }

  /** The copy of an exported pair writes the pair, and is read once more. */
  lemma CopiedWithoutExport(x: string, val: string)
    requires Plain(x) && OneLine(val) && val != "" && !IsSpace(val[0]) && !IsSpace(val[|val| - 1])
    ensures ReadKeys(EXPORT + x + "=" + val) == [x] && ReadKeys(CopyText(EXPORT + x + "=" + val)) == Keys(KeyBefore(x))
  {
    hide *;
    ExportedShape(x);
    KeyOfExported(x);
    ExportedLine(x, val);
    CopyOfExported(x, val);
    DefaultShape(x, val);
    ExportedPlain(x);
    TextOfOneLine(EXPORT + x + "=" + val);
    KeysOfPairLine(EXPORT + x, val);
    KeysOfPairLine(x, SafeDefault(x, val));
  }

  lemma ExportedPlain(x: string)
    requires Plain(x) && Plain(EXPORT + x)
    ensures NoEquals(x) && OneLine(x) && NoEquals(EXPORT + x) && OneLine(EXPORT + x)
  {
  }

  lemma DefaultShape(x: string, val: string)
    requires OneLine(val) && val != "" && !IsSpace(val[|val| - 1])
    ensures var kept := SafeDefault(x, val); OneLine(kept) && (kept != "" ==> !IsSpace(kept[|kept| - 1]))
  {
  }

  lemma ExportedLine(x: string, val: string)
    requires Plain(x) && OneLine(val) && val != "" && !IsSpace(val[|val| - 1])
    ensures var line := EXPORT + x + "=" + val; OneLine(line) && line != "" && line[|line| - 1] != '\r'
  {
    ExportedShape(x);
    OneLineConcat(EXPORT + x, "=");
    OneLineConcat(EXPORT + x + "=", val);
  }

  lemma CopyOfExported(x: string, val: string)
    requires Plain(x) && val != "" && !IsSpace(val[|val| - 1])
    ensures CopyLine(EXPORT + x + "=" + val) == x + "=" + SafeDefault(x, val)
  {
    hide IsSecretName, SafeDefault;
    var raw := EXPORT + x;
    var line := raw + "=" + val;
    assert line[0] == 'e' && line[|line| - 1] == val[|val| - 1];
    TrimOfTrimmed(line);
    ExportedShape(x);
    BareOfPair(raw, val);
    assert raw[..|EXPORT|] == EXPORT && raw[|EXPORT|..] == x;
    SplitAtEquals(x, val);
  }

  lemma TextOfOneLine(line: string)
    requires OneLine(line) && line != "" && line[|line| - 1] != '\r'
    ensures CopyText(line) == CopyLine(line) + "\n"
  {
    assert IndexByte(line, '\n') < 0;
    assert Lines(line) == [line];
    hide CopyLine;
    var cs := CopyLines([line]);
    assert cs == [CopyLine(line)] && cs[1..] == [];
    assert Unlines(cs) == CopyLine(line) + "\n" + Unlines([]);
  }

  // ------------------------------------------------------------ versions

  /** The smallest 64-bit integer as a version: a major to init, unreadable to the check. */
  lemma SmallestMajor()
    ensures var v := FormatInt(MIN_INT64);
      && Versions.MajorOf(v) == v
      && VersionReq.Check(v, VersionReq.OpText(VersionReq.Ge) + v) == VersionReq.CheckResult(false, false)
  {
    var v := FormatInt(MIN_INT64);
    ParseFormat(MIN_INT64);
    PrintedMajor(FormatNat(-MIN_INT64));
    hide VersionReq.Check;
    Versions.GeneratedRequirementAcceptsItsVersion(v);
  }

  lemma PrintedMajor(d: string)
    requires d != "" && AllDigits(d) && Atoi("-" + d).Some?
    ensures Versions.MajorOf("-" + d) == "-" + d
  {
    var v := "-" + d;
    assert forall i | 0 <= i < |v| :: v[i] == if i == 0 then '-' else d[i - 1];
    assert IsDigit(d[|d| - 1]);
    TrimOfTrimmed(v);
    assert IndexByte(v, '.') < 0;
  }

  // ------------------------------------------------------------- the fix

  lemma LettersAreKeys()
    ensures WellFormed("A") && WellFormed("B")
  {
  }

  /** The key appended behind an unfinished line merges with it. */
  lemma MergedIntoOpenLine()
    ensures !Clean(EnvConfig(["B"], []), FixRound(EnvConfig(["B"], []), [], [], None, Some("A")))
  {
    hide *;
    LettersAreKeys();
    var cfg := EnvConfig(["B"], []);
    NoKeysInWord();
    DeclaresNothing("A", "B");
    OneMissing("B", Some("A"));
    OneWellFormed("B");
    OpenWordIsNotFresh();
    NoOtherItems();
    FixConvergesExactly(cfg, [], [], None, Some("A"));
    MergedNotConverging(cfg);
  }

  lemma DeclaresNothing(text: string, k: string)
    requires ReadKeys(text) == []
    ensures !Declares(Some(text), k)
  {
  }

  lemma OneWellFormed(k: string)
    requires WellFormed(k)
    ensures AllWellFormed([k])
  {
  }

  lemma NoOtherItems()
    ensures NoEnvItems([])
  {
  }

  lemma MergedNotConverging(cfg: EnvConfig)
    requires AllMissingKeys(cfg, Some("A")) == ["B"] && OpenLine("A") == "A" && !FreshLine("A")
    ensures !Converges(cfg, None, Some("A"))
  {
    hide AllMissingKeys, OpenLine, FreshLine;
  }

  lemma NoKeysInWord()
    ensures ReadKeys("A") == []
  {
    ReadKeysLine("A");
    if ParseLine("A").Pair? { PairHasEquals("A"); }
  }

  lemma OneMissing(k: string, env: Option<string>)
    requires !Declares(env, k)
    ensures AllMissingKeys(EnvConfig([k], []), env) == [k]
  {
    hide ReadKeys;
    assert [k][..0] == [];
    assert Missing([k], env) == [k];
  }

  lemma OpenWordIsNotFresh()
    ensures OpenLine("A") == "A" && !FreshLine("A")
  {
    assert LastLineStart("A", 1) == LastLineStart("A", 0) == 0;
    TrimLeftUnique("A", 0);
    TrimOfTrimmed("A");
  }

  /** The second create truncates what the first append wrote. */
  lemma RequiredKeyTruncated()
    ensures var cfg := EnvConfig(["A"], ["B"]); !Clean(cfg, FixRound(cfg, [], [], Some(""), None))
  {
    LettersAreKeys();
    assert CopyText("") == "";
    assert ReadKeys("") == [];
    hide FixRound, WellFormed;
    LostRequiredKey("", "A", "B");
  }

  /** A comma in a key: the plan reads back two keys. */
  lemma CommaSplitsKey(w: Want)
    ensures ExtractMissingKeys(Sentence(w, ["A,B"])) != ["A,B"]
  {
    SentenceRoundTrip(w, ["A,B"]);
    assert "A,B"[1] == ',';
    assert ["A,B"][0] == "A,B" && !Listable(["A,B"][0]);
  }

  lemma CommaNeverFixed()
    ensures !Clean(EnvConfig(["A,B"], []), FixRound(EnvConfig(["A,B"], []), [], [], None, None))
  {
    var cfg := EnvConfig(["A,B"], []);
    OneMissing("A,B", None);
    assert "A,B"[1] == ',' && !WellFormed("A,B");
    assert AllMissingKeys(cfg, None)[0] == "A,B";
    hide FixRound, WellFormed;
    FixEvery.FixSufficesForWellFormed(cfg, [], [], None, None);
  }

  // ------------------------------------------------------------ the diff

  /** Two services for one port: the mirrored entry has another name. */
  lemma LabelsDisagree(s: Snapshot, nameA: string, nameB: string)
    ensures var a, b := WebUp(s), ApiDown(s);
      !Diff.Mirrors(a, b, nameA, nameB) && !Diff.LabelAgrees(80, a.ports, b.ports)
  {
    var a, b := WebUp(s), ApiDown(s);
    assert "web"[0] == 'w' && "api"[0] == 'a';
    assert !Diff.LabelAgrees(80, a.ports, b.ports);
    hide Diff.Mirrors;
    Diff.DiffMirrorsExactly(a, b, nameA, nameB);
  }

  function WebUp(s: Snapshot): Snapshot { s.(ports := map[80 := PortInfo("web", true)]) }

  function ApiDown(s: Snapshot): Snapshot { s.(ports := map[80 := PortInfo("api", false)]) }

  /** A Go project whose machine prints "missing" as the version of Go. */
  function OddGo(s: Snapshot): Snapshot {
    s.(manifests := ["go.mod"], runtimes := s.runtimes.(golang := VersionInfo("missing", true)))
  }

  /** The same project on a machine without Go. */
  function NoGo(s: Snapshot): Snapshot { s.(manifests := ["go.mod"], runtimes := s.runtimes.(golang := ABSENT)) }

  /** A required runtime that prints "missing" as its version: each direction accuses its first machine. */
  lemma BothReadMissing(s: Snapshot, nameA: string, nameB: string)
    requires nameA != nameB
    ensures !Diff.Mirrors(OddGo(s), NoGo(s), nameA, nameB)
    ensures MissingGo(nameA) in Diff.FullDiff(OddGo(s), NoGo(s), nameA, nameB)
    ensures MissingGo(nameB) in Diff.FullDiff(NoGo(s), OddGo(s), nameB, nameA)
    ensures MissingGo(nameA) != MissingGo(nameB)
  {
    var a, b := OddGo(s), NoGo(s);
    GoReads(s);
    GoIsRequired(a.manifests, b.manifests);
    BlamesFirst(Diff.RequiredRuntimes(a.manifests, b.manifests), nameA, nameB);
    BlamesFirst(Diff.RequiredRuntimes(b.manifests, a.manifests), nameB, nameA);
    Diff.MissingOnNamesOne("Go", nameA, nameB);
    hide Diff.RequiredRuntimes, Diff.Mirrors, Diff.FullDiff, Diff.MissingOn, RuntimeInfos,
        Diff.CompareRuntime, Diff.InContext;
    Diff.RuntimeStandsInDiff(a, b, nameA, nameB, 10, GoEntry());
    Diff.RuntimeStandsInDiff(b, a, nameB, nameA, 10, GoEntry());
    assert !Diff.NoneAmbiguous(RUNTIME_NAMES, RuntimeInfos(a.runtimes), RuntimeInfos(b.runtimes),
                               Diff.RequiredRuntimes(a.manifests, b.manifests)) by {
      assert Diff.Ambiguous(RUNTIME_NAMES[10], RuntimeInfos(a.runtimes)[10], RuntimeInfos(b.runtimes)[10],
                            Diff.RequiredRuntimes(a.manifests, b.manifests));
    }
    Diff.DiffMirrorsExactly(a, b, nameA, nameB);
  }

  /** The finding for Go before the project's context is applied. */
  function GoEntry(): Diff.Entry {
    Diff.Entry("Runtime", "Go", Diff.MISSING, Diff.MISSING, Diff.Difference, "")
  }

  /** And the blocker it becomes. */
  function MissingGo(machine: string): Diff.Entry {
    Diff.Entry("Runtime", "Go", Diff.MISSING, Diff.MISSING, Diff.Critical, Diff.MissingOn("Go", machine))
  }

  lemma GoReads(s: Snapshot)
    ensures RUNTIME_NAMES[10] == "Go"
    ensures RuntimeInfos(OddGo(s).runtimes)[10] == VersionInfo(Diff.MISSING, true)
              && RuntimeInfos(NoGo(s).runtimes)[10] == ABSENT
    ensures GoEntry() in Diff.CompareRuntime("Go", VersionInfo(Diff.MISSING, true), ABSENT)
    ensures GoEntry() in Diff.CompareRuntime("Go", ABSENT, VersionInfo(Diff.MISSING, true))
  {
  }

  lemma BlamesFirst(required: set<string>, nameA: string, nameB: string)
    requires "Go" in required
    ensures Diff.InContext(GoEntry(), required, nameA, nameB) == MissingGo(nameA)
  {
  }

  lemma GoIsRequired(ma: seq<string>, mb: seq<string>)
    requires ma == ["go.mod"] && mb == ["go.mod"]
    ensures "Go" in Diff.RequiredRuntimes(ma, mb) && "Go" in Diff.RequiredRuntimes(mb, ma)
  {
    assert "go.mod"[0] == 'g' && "package.json"[0] == 'p';
    assert "Go" in Diff.ProjectRuntimes(ma[0]);
  }

  /** One machine, counted twice. */
  lemma CountedTwice(s: Snapshot)
    ensures var baseline, in_ := s.(missingKeys := ["A"]), Team.Input("x", s.(missingKeys := ["B"]));
      multiset(Team.AllBlockers(baseline, [in_]))[TeamCounts.ENV_TEXT] == 2
  {
    var baseline, in_ := s.(missingKeys := ["A"]), Team.Input("x", s.(missingKeys := ["B"]));
    assert "A"[0] == 'A' && "B"[0] == 'B';
    assert ["A"][0] == "A" && ["B"][0] == "B";
    assert "A" in Diff.Subtract(["A"], ["B"]) && "B" in Diff.Subtract(["B"], ["A"]);
    TeamCounts.EnvTextCountedTwice(baseline, in_);
  }

  // -------------------------------------------------------- name lists

  lemma Lacks(s: string, t: string, c: char)
    requires c in t && c !in s
    ensures !Contains(s, t)
  {
    if Contains(s, t) { OccursKeepsChars(s, t, Index(s, t), c); }
  }

  lemma OccursKeepsChars(s: string, t: string, i: int, c: char)
    requires Occurs(s, t, i) && c in t
    ensures c in s
  {
    var k :| 0 <= k < |t| && t[k] == c;
    assert s[i..i + |t|][k] == s[i + k];
  }

  /** The two lists of sensitive names differ: a database URL is classified sensitive, yet its default is copied. */
  lemma DatabaseUrlIsCopied(val: string)
    ensures EnvClassify.IsSensitiveName("DATABASE_URL") && SafeDefault("DATABASE_URL", val) == val
  {
    var s := "DATABASE_URL";
    UpperKeeps(s);
    NotSecret(s);
    ContainsAt(s, s, 0);
    assert s[0..|s|] == s;
    assert EnvClassify.SENSITIVE_TERMS[4] == s;
  }

  lemma NotSecret(s: string)
    requires Upper(s) == s
    requires 'C' !in s && 'P' !in s && 'K' !in s && 'H' !in s && 'I' !in s && 'O' !in s
    ensures !IsSecretName(s)
  {
    Lacks(s, "SECRET", 'C');
    Lacks(s, "PASSWORD", 'P');
    Lacks(s, "API_KEY", 'K');
    Lacks(s, "TOKEN", 'O');
    Lacks(s, "AUTH", 'H');
    Lacks(s, "CREDENTIAL", 'C');
    Lacks(s, "PRIVATE", 'P');
    Lacks(s, "SIGNING", 'I');
  }
}
