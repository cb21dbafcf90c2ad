/**
 init's reading of an example file: comment hints, disabled feature groups and
 key names decide which keys are required, recommended or optional.
 */
module EnvClassify {
  import opened Prelude
  import opened Text
  import opened EnvText
  import opened Spelling

  datatype EnvClass = Required | Recommended | Optional

  datatype RawLine = RawLine(key: string, value: string, hint: Option<EnvClass>)

  datatype EnvEntry = EnvEntry(key: string, value: string, class_: EnvClass)

  // ----------------------------------------------- pass 1: hints and keys

  /** What the scan needs of one line. A note carries the hint its words give, if any. */
  datatype Token = KeyLine(key: string, value: string) | Note(hint: Option<EnvClass>) | Gap

  function HintOf(comment: string): Option<EnvClass> {
    var lower := Lower(comment);
    if Contains(lower, "required") then Some(Required)
    else if Contains(lower, "recommended") then Some(Recommended)
    else if Contains(lower, "optional") then Some(Optional)
    else None
  }

  function TokenOf(text: string): Token {
    match ParseLine(text)
    case Pair(key, value) => KeyLine(key, value)
    case Comment => Note(HintOf(Trim(text)))
    case _ => Gap
  }

  function Tokens(lines: seq<string>): (r: seq<Token>)
    ensures |r| == |lines| && forall i | 0 <= i < |lines| :: r[i] == TokenOf(lines[i])
  {
    seq(|lines|, i requires 0 <= i < |lines| => TokenOf(lines[i]))
  }

  /** The hint still pending after the first n tokens. */
  function Pending(tokens: seq<Token>, n: nat): Option<EnvClass>
    requires n <= |tokens|
  {
    if n == 0 then None
    else
      match tokens[n - 1]
      case Note(Some(h)) => Some(h)
      case Note(None) => Pending(tokens, n - 1)
      case _ => None
  }

  function RawLines(tokens: seq<Token>, n: nat): seq<RawLine>
    requires n <= |tokens|
  {
    if n == 0 then []
    else
      match tokens[n - 1]
      case KeyLine(key, value) => RawLines(tokens, n - 1) + [RawLine(key, value, Pending(tokens, n - 1))]
      case _ => RawLines(tokens, n - 1)
  }

  /** The scanner loop with its pending-hint state. */
  method CollectRawLines(lines: seq<string>) returns (raw: seq<RawLine>)
    ensures raw == RawLines(Tokens(lines), |lines|)
  {
    raw := [];
    var pendingHint := Required;
    var pendingHintSet := false;
    ghost var tokens := Tokens(lines);
    hide TokenOf;
    for i := 0 to |lines|
      invariant raw == RawLines(tokens, i)
      invariant Pending(tokens, i) == if pendingHintSet then Some(pendingHint) else None
    {
      match TokenOf(lines[i]) {
        case Gap =>
          pendingHintSet := false;
        case Note(hint) =>
          if hint.Some? {
            pendingHint, pendingHintSet := hint.value, true;
          }
        case KeyLine(key, value) =>
          raw := raw + [RawLine(key, value, if pendingHintSet then Some(pendingHint) else None)];
          pendingHintSet := false;
      }
    }
  }

  ghost predicate OnlyPlainNotes(tokens: seq<Token>, i: nat, j: nat)
    requires j <= |tokens|
  {
    forall k | i <= k < j :: tokens[k] == Note(None)
  }

  /** A hint reaches a line exactly when only hint-free comments stand between them. */
  lemma {:induction false} HintReachesExactly(tokens: seq<Token>, j: nat, h: EnvClass)
    requires j <= |tokens|
    ensures Pending(tokens, j) == Some(h) <==>
              exists i: nat :: i < j && tokens[i] == Note(Some(h)) && OnlyPlainNotes(tokens, i + 1, j)
  {
    if j > 0 {
      HintReachesExactly(tokens, j - 1, h);
      if tokens[j - 1] == Note(Some(h)) {
        assert OnlyPlainNotes(tokens, j, j);
      } else if tokens[j - 1] == Note(None) {
        if Pending(tokens, j - 1) == Some(h) {
          var i: nat :| i < j - 1 && tokens[i] == Note(Some(h)) && OnlyPlainNotes(tokens, i + 1, j - 1);
          assert OnlyPlainNotes(tokens, i + 1, j);
        }
        forall i: nat | i < j && tokens[i] == Note(Some(h)) && OnlyPlainNotes(tokens, i + 1, j)
          ensures Pending(tokens, j) == Some(h)
        {
          assert OnlyPlainNotes(tokens, i + 1, j - 1);
        }
      } else {
        forall i: nat | i < j && tokens[i] == Note(Some(h))
          ensures !OnlyPlainNotes(tokens, i + 1, j)
        {
          assert i != j - 1;
        }
      }
    }
  }

  lemma RawLinesStep(tokens: seq<Token>, n: nat)
    requires 0 < n <= |tokens|
    ensures RawKeys(RawLines(tokens, n)) == RawKeys(RawLines(tokens, n - 1))
            + match tokens[n - 1] { case KeyLine(key, _) => [key] case _ => [] }
  {
    hide Pending;
  }

  lemma TokenKey(line: string)
    ensures KeyPart(ParseLine(line)) == match TokenOf(line) { case KeyLine(key, _) => [key] case _ => [] }
  {
  }

  /** The scan yields one raw line per key line of the file, in order, with the reader's keys. */
  lemma {:induction false} RawLinesAreKeyLines(lines: seq<string>, n: nat)
    requires n <= |lines|
    ensures RawKeys(RawLines(Tokens(lines), n)) == KeysOf(ParseAll(lines)[..n])
  {
    hide ParseLine, TokenOf, KeyPart;
    if n > 0 {
      hide RawLines, KeysOf, RawKeys;
      RawLinesAreKeyLines(lines, n - 1);
      KeysStep(ParseAll(lines), n - 1);
      TokenKey(lines[n - 1]);
      RawLinesStep(Tokens(lines), n);
    } else {
      assert ParseAll(lines)[..0] == [];
    }
  }

  function RawKeys(raw: seq<RawLine>): (r: seq<string>)
    ensures |r| == |raw| && forall i | 0 <= i < |raw| :: r[i] == raw[i].key
  {
    seq(|raw|, i requires 0 <= i < |raw| => raw[i].key)
  }

  // ------------------------------------ pass 2: disabled feature groups

  predicate IsBoolFalse(v: string) { EqualFold(Trim(v), "false") || Trim(v) == "0" }

  const SWITCHES: seq<string> := ["ENABLED", "ENABLE"]

  /** The group prefix a key names with a switch word after an underscore, or "". */
  function SwitchPrefix(upperKey: string, switch_: string): string {
    if HasSuffix(upperKey, "_" + switch_) then upperKey[..|upperKey| - |switch_|] else ""
  }

  function LinePrefixes(line: RawLine): set<string> {
    if IsBoolFalse(line.value) then
      set i | 0 <= i < |SWITCHES| && SwitchPrefix(Upper(line.key), SWITCHES[i]) != "" ::
          SwitchPrefix(Upper(line.key), SWITCHES[i])
    else {}
  }

  function DisabledPrefixes(lines: seq<RawLine>): set<string> {
    set i, p | 0 <= i < |lines| && p in LinePrefixes(lines[i]) :: p
  }

  method CollectDisabledPrefixes(lines: seq<RawLine>) returns (prefixes: set<string>)
    ensures prefixes == DisabledPrefixes(lines)
  {
    prefixes := {};
    hide LinePrefixes;
    for i := 0 to |lines|
      invariant prefixes == DisabledPrefixes(lines[..i])
    {
      assert lines[..i + 1] == lines[..i] + [lines[i]];
      prefixes := AddLinePrefixes(prefixes, lines[i]);
    }
    assert lines[..|lines|] == lines;
  }

  /** The inner loop over the two switch words. */
  method AddLinePrefixes(before: set<string>, line: RawLine) returns (prefixes: set<string>)
    ensures prefixes == before + LinePrefixes(line)
  {
    prefixes := before;
    if IsBoolFalse(line.value) {
      var k := Upper(line.key);
      hide SwitchPrefix, IsBoolFalse;
      for j := 0 to |SWITCHES|
        invariant prefixes == before +
                  set n | 0 <= n < j && SwitchPrefix(k, SWITCHES[n]) != "" :: SwitchPrefix(k, SWITCHES[n])
      {
        var p := SwitchPrefix(k, SWITCHES[j]);
        if p != "" {
          prefixes := prefixes + {p};
        }
      }
    }
  }

  /** White space aside, the value is 0, or spells false in any letter case. */
  ghost predicate OffValue(v: string) { Trim(v) == "0" || Spelled(Trim(v), "false") }

  lemma OffValueIsBoolFalse(v: string)
    ensures IsBoolFalse(v) <==> OffValue(v)
  {
    EqualFoldSpells(Trim(v), "false");
  }

  /** The switch a line turns off: STEM_ENABLED or STEM_ENABLE set to false or 0. */
  ghost predicate TurnsOff(line: RawLine, prefix: string) {
    && OffValue(line.value)
    && prefix != "" && prefix[|prefix| - 1] == '_'
    && (Upper(line.key) == prefix + "ENABLED" || Upper(line.key) == prefix + "ENABLE")
  }

  lemma SwitchPrefixMeans(k: string, w: string, p: string)
    ensures p != "" && SwitchPrefix(k, w) == p <==> p != "" && p[|p| - 1] == '_' && k == p + w
  {
    var s := "_" + w;
    if HasSuffix(k, s) {
      var n := |k| - |w|;
      assert k == k[..n] + k[n..];
      assert k[n..] == k[|k| - |s|..][1..] == w;
      assert k[n - 1] == k[|k| - |s|..][0] == '_';
    }
    if p != "" && p[|p| - 1] == '_' && k == p + w {
      assert k[|k| - |s|..] == s;
    }
  }

  lemma PrefixesOfLine(line: RawLine, p: string)
    ensures p in LinePrefixes(line) <==> TurnsOff(line, p)
  {
    OffValueIsBoolFalse(line.value);
    hide IsBoolFalse, OffValue;
    var k := Upper(line.key);
    SwitchPrefixMeans(k, SWITCHES[0], p);
    SwitchPrefixMeans(k, SWITCHES[1], p);
    if IsBoolFalse(line.value) && p != "" && SwitchPrefix(k, SWITCHES[1]) == p {
      assert p in LinePrefixes(line);
    }
    if IsBoolFalse(line.value) && p != "" && SwitchPrefix(k, SWITCHES[0]) == p {
      assert p in LinePrefixes(line);
    }
  }

  ghost predicate InDisabledGroup(key: string, lines: seq<RawLine>) {
    exists i, p :: 0 <= i < |lines| && TurnsOff(lines[i], p) && p <= Upper(key)
  }

  lemma DisabledExactly(key: string, lines: seq<RawLine>)
    ensures HasDisabledPrefix(key, DisabledPrefixes(lines)) <==> InDisabledGroup(key, lines)
  {
    if HasDisabledPrefix(key, DisabledPrefixes(lines)) {
      var p :| p in DisabledPrefixes(lines) && p <= Upper(key);
      var i :| 0 <= i < |lines| && p in LinePrefixes(lines[i]);
      PrefixesOfLine(lines[i], p);
    }
    if InDisabledGroup(key, lines) {
      var i, p :| 0 <= i < |lines| && TurnsOff(lines[i], p) && p <= Upper(key);
      PrefixesOfLine(lines[i], p);
      assert p in DisabledPrefixes(lines);
    }
  }

  // ------------------------------------------------- pass 3: classification

  const SENSITIVE_TERMS: seq<string> :=
    ["API_KEY", "TOKEN", "SECRET", "PASSWORD", "DATABASE_URL", "DB_URL",
     "ACCOUNT_ID", "CLIENT_ID", "CLIENT_SECRET", "AUTH", "CREDENTIAL"]

  predicate IsSensitiveName(name: string) { NamesAny(name, SENSITIVE_TERMS) }

  predicate HasDisabledPrefix(key: string, prefixes: set<string>) {
    exists p | p in prefixes :: p <= Upper(key)
  }

  function Classify(line: RawLine, prefixes: set<string>): EnvClass {
    match line.hint
    case Some(h) => h
    case None =>
      if HasDisabledPrefix(line.key, prefixes) then Optional
      else if Trim(line.value) != "" then Recommended
      else if IsSensitiveName(line.key) then Required
      else Recommended
  }

  function ClassifyAll(raw: seq<RawLine>): (r: seq<EnvEntry>)
    ensures |r| == |raw|
    ensures forall i | 0 <= i < |raw| ::
              r[i] == EnvEntry(raw[i].key, raw[i].value, Classify(raw[i], DisabledPrefixes(raw)))
  {
    seq(|raw|, i requires 0 <= i < |raw| => EnvEntry(raw[i].key, raw[i].value, Classify(raw[i], DisabledPrefixes(raw))))
  }

  function ClassifyExample(text: string): seq<EnvEntry> {
    ClassifyAll(RawLines(Tokens(Lines(text)), |Lines(text)|))
  }

  method ClassifyEnvExample(text: string) returns (entries: seq<EnvEntry>)
    ensures entries == ClassifyExample(text)
  {
    var raw := CollectRawLines(Lines(text));
    var prefixes := CollectDisabledPrefixes(raw);
    hide Classify, RawLines, Tokens, Lines, DisabledPrefixes;
    entries := [];
    for i := 0 to |raw|
      invariant entries == ClassifyAll(raw)[..i]
    {
      entries := entries + [EnvEntry(raw[i].key, raw[i].value, Classify(raw[i], prefixes))];
    }
  }

  /** A key is required iff hinted so, or unhinted, in no disabled group, blank and sensitive. */
  lemma RequiredExactly(raw: seq<RawLine>, i: nat)
    requires i < |raw|
    ensures ClassifyAll(raw)[i].class_ == Required <==>
              || raw[i].hint == Some(Required)
              || (raw[i].hint == None && !InDisabledGroup(raw[i].key, raw) && Trim(raw[i].value) == ""
                  && IsSensitiveName(raw[i].key))
    ensures ClassifyAll(raw)[i].class_ == Optional <==>
              raw[i].hint == Some(Optional) || (raw[i].hint == None && InDisabledGroup(raw[i].key, raw))
  {
    DisabledExactly(raw[i].key, raw);
  }

  lemma PrefixesIgnoreOrder(a: seq<RawLine>, b: seq<RawLine>)
    requires multiset(a) == multiset(b)
    ensures DisabledPrefixes(a) == DisabledPrefixes(b)
  {
    forall p
      ensures p in DisabledPrefixes(a) <==> p in DisabledPrefixes(b)
    {
      assert forall l :: l in a <==> l in multiset(a);
      assert forall l :: l in b <==> l in multiset(b);
      assert p in DisabledPrefixes(a) <==> exists l | l in a :: p in LinePrefixes(l);
      assert p in DisabledPrefixes(b) <==> exists l | l in b :: p in LinePrefixes(l);
    }
  }

  /** A line's class does not depend on where in the file its group's switch stands. */
  lemma ClassIgnoresOrder(a: seq<RawLine>, b: seq<RawLine>, i: nat, j: nat)
    requires multiset(a) == multiset(b) && i < |a| && j < |b| && a[i] == b[j]
    ensures ClassifyAll(a)[i] == ClassifyAll(b)[j]
  {
    PrefixesIgnoreOrder(a, b);
  }

  // ----------------------------------------- the three lists of the config

  function KeysOfClass(entries: seq<EnvEntry>, c: EnvClass): seq<string> {
    if entries == [] then []
    else KeysOfClass(entries[..|entries| - 1], c)
         + if entries[|entries| - 1].class_ == c then [entries[|entries| - 1].key] else []
  }

  /** The keys of a class stand in the order of the file. */
  lemma {:induction false} ClassInOrder(a: seq<EnvEntry>, b: seq<EnvEntry>, e: EnvEntry, c: EnvClass)
    ensures KeysOfClass(a + b, c) == KeysOfClass(a, c) + KeysOfClass(b, c)
    ensures KeysOfClass([e], c) == if e.class_ == c then [e.key] else []
  {
    assert [e][..0] == [];
    if b == [] {
      assert a + b == a;
    } else {
      assert (a + b)[..|a + b| - 1] == a + b[..|b| - 1];
      ClassInOrder(a, b[..|b| - 1], e, c);
    }
  }

  method SplitByClass(entries: seq<EnvEntry>) returns (req: seq<string>, rec: seq<string>, opt: seq<string>)
    ensures req == KeysOfClass(entries, Required)
    ensures rec == KeysOfClass(entries, Recommended)
    ensures opt == KeysOfClass(entries, Optional)
  {
    req, rec, opt := [], [], [];
    for i := 0 to |entries|
      invariant req == KeysOfClass(entries[..i], Required)
      invariant rec == KeysOfClass(entries[..i], Recommended)
      invariant opt == KeysOfClass(entries[..i], Optional)
    {
      assert entries[..i + 1][..i] == entries[..i];
      match entries[i].class_ {
        case Required => req := req + [entries[i].key];
        case Recommended => rec := rec + [entries[i].key];
        case Optional => opt := opt + [entries[i].key];
      }
    }
    assert entries[..|entries|] == entries;
  }

  function EntryKeys(entries: seq<EnvEntry>): (r: seq<string>)
    ensures |r| == |entries| && forall i | 0 <= i < |entries| :: r[i] == entries[i].key
  {
    seq(|entries|, i requires 0 <= i < |entries| => entries[i].key)
  }

  function Times(keys: seq<string>, k: string): nat { multiset(keys)[k] }

  ghost function TimesIn(entries: seq<EnvEntry>, k: string, c: EnvClass): nat {
    if entries == [] then 0
    else
      var last := entries[|entries| - 1];
      TimesIn(entries[..|entries| - 1], k, c) + if last.key == k && last.class_ == c then 1 else 0
  }

  lemma {:induction false} ListTimes(entries: seq<EnvEntry>, k: string, c: EnvClass)
    ensures Times(KeysOfClass(entries, c), k) == TimesIn(entries, k, c)
  {
    if entries != [] { ListTimes(entries[..|entries| - 1], k, c); }
  }

  lemma {:induction false} AllTimes(entries: seq<EnvEntry>, k: string)
    ensures Times(EntryKeys(entries), k)
         == TimesIn(entries, k, Required) + TimesIn(entries, k, Recommended) + TimesIn(entries, k, Optional)
  {
    if entries != [] {
      var front, last := entries[..|entries| - 1], entries[|entries| - 1];
      AllTimes(front, k);
      assert EntryKeys(entries) == EntryKeys(front) + [last.key];
    }
  }

  lemma ListsConserveKeys(es: seq<EnvEntry>)
    ensures multiset(KeysOfClass(es, Required)) + multiset(KeysOfClass(es, Recommended))
              + multiset(KeysOfClass(es, Optional))
         == multiset(EntryKeys(es))
  {
    forall k
      ensures Times(EntryKeys(es), k) == Times(KeysOfClass(es, Required), k) + Times(KeysOfClass(es, Recommended), k)
                                         + Times(KeysOfClass(es, Optional), k)
    {
      AllTimes(es, k);
      ListTimes(es, k, Required);
      ListTimes(es, k, Recommended);
      ListTimes(es, k, Optional);
    }
    assert forall k :: Times(EntryKeys(es), k) == multiset(EntryKeys(es))[k];
  }

  /** The classifier and the key reader see the same keys in the same order. */
  lemma EntriesKeepKeys(text: string)
    ensures EntryKeys(ClassifyExample(text)) == ReadKeys(text)
  {
    var lines := Lines(text);
    RawLinesAreKeyLines(lines, |lines|);
    assert ParseAll(lines)[..|lines|] == ParseAll(lines);
    var raw := RawLines(Tokens(lines), |lines|);
    assert EntryKeys(ClassifyAll(raw)) == RawKeys(raw);
  }

  /** The three lists hold exactly the keys the reader finds in the example, none lost or repeated. */
  lemma SplitConservesExampleKeys(text: string)
    ensures var es := ClassifyExample(text);
      multiset(KeysOfClass(es, Required)) + multiset(KeysOfClass(es, Recommended)) + multiset(KeysOfClass(es, Optional))
      == multiset(ReadKeys(text))
  {
    EntriesKeepKeys(text);
    ListsConserveKeys(ClassifyExample(text));
  }

  // -------------------------------- the class of a line, from the text alone

  /** A comment hints by the first of these words it mentions, in any letter case. */
  ghost function WordHint(comment: string): Option<EnvClass> {
    if Mentions(comment, "required") then Some(Required)
    else if Mentions(comment, "recommended") then Some(Recommended)
    else if Mentions(comment, "optional") then Some(Optional)
    else None
  }

  lemma HintIsWord(comment: string)
    ensures HintOf(comment) == WordHint(comment)
  {
    hide Mentions, Contains, Lower;
    ContainsLowerSpells(comment, "required");
    ContainsLowerSpells(comment, "recommended");
    ContainsLowerSpells(comment, "optional");
  }

  ghost predicate Hints(line: string, h: Option<EnvClass>) {
    ParseLine(line).Comment? && WordHint(Trim(line)) == h
  }

  /** An earlier comment gives the hint, and only hint-free comments stand between it and line n. */
  ghost predicate Hinted(lines: seq<string>, n: nat, h: EnvClass)
    requires n <= |lines|
  {
    exists i: nat :: i < n && Hints(lines[i], Some(h)) && forall k | i < k < n :: Hints(lines[k], None)
  }

  /** Some line, before or after, turns off a switch whose stem the key starts with. */
  ghost predicate SwitchedOff(lines: seq<string>, key: string) {
    exists i, p :: 0 <= i < |lines| && LineTurnsOff(lines[i], p) && p <= Upper(key)
  }

  ghost predicate LineTurnsOff(line: string, prefix: string) {
    match ParseLine(line)
    case Pair(key, value) => TurnsOff(RawLine(key, value, None), prefix)
    case _ => false
  }

  /** The class of the key on line n, as a reader of the file sees it. */
  ghost predicate LineHasClass(lines: seq<string>, n: nat, c: EnvClass)
    requires n < |lines| && ParseLine(lines[n]).Pair?
  {
    var p := ParseLine(lines[n]);
    Hinted(lines, n, c) ||
    ((forall h :: !Hinted(lines, n, h)) &&
     c == if SwitchedOff(lines, p.key) then Optional
          else if Trim(p.value) == "" && IsSensitiveName(p.key) then Required
          else Recommended)
  }

  lemma HintToken(line: string, g: Option<EnvClass>)
    ensures Hints(line, g) <==> TokenOf(line) == Note(g)
  {
    hide ParseLine, HintOf, WordHint, Trim;
    HintIsWord(Trim(line));
  }

  lemma HintedByTokens(lines: seq<string>, n: nat, h: EnvClass)
    requires n <= |lines|
    ensures Hinted(lines, n, h) <==>
              exists i: nat :: i < n && Tokens(lines)[i] == Note(Some(h)) && OnlyPlainNotes(Tokens(lines), i + 1, n)
  {
    hide TokenOf, Hints;
    var tokens := Tokens(lines);
    forall i, g | 0 <= i < |lines|
      ensures Hints(lines[i], g) <==> tokens[i] == Note(g)
    {
      HintToken(lines[i], g);
    }
    hide Tokens;
    if Hinted(lines, n, h) {
      var i: nat :| i < n && Hints(lines[i], Some(h)) && forall k | i < k < n :: Hints(lines[k], None);
      assert tokens[i] == Note(Some(h)) && OnlyPlainNotes(tokens, i + 1, n);
    }
    if i: nat :| i < n && tokens[i] == Note(Some(h)) && OnlyPlainNotes(tokens, i + 1, n) {
      assert Hints(lines[i], Some(h)) && forall k | i < k < n :: Hints(lines[k], None);
    }
  }

  lemma HintedIsPending(lines: seq<string>, n: nat, h: EnvClass)
    requires n <= |lines|
    ensures Hinted(lines, n, h) <==> Pending(Tokens(lines), n) == Some(h)
  {
    hide *;
    HintedByTokens(lines, n, h);
    HintReachesExactly(Tokens(lines), n, h);
  }

  /** Which raw line line n became, and that every raw line came from some line. */
  lemma {:induction false} RawLineOf(tokens: seq<Token>, n: nat, m: nat)
    requires n < m <= |tokens| && tokens[n].KeyLine?
    ensures var i := |RawLines(tokens, n)|;
      i < |RawLines(tokens, m)| && RawLines(tokens, m)[i] == RawLine(tokens[n].key, tokens[n].value, Pending(tokens, n))
    decreases m
  {
    hide Pending;
    if m > n + 1 { RawLineOf(tokens, n, m - 1); }
  }

  lemma {:induction false} LineOfRaw(tokens: seq<Token>, m: nat, i: nat) returns (n: nat)
    requires m <= |tokens| && i < |RawLines(tokens, m)|
    ensures n < m && tokens[n].KeyLine? && i == |RawLines(tokens, n)|
    ensures RawLines(tokens, m)[i] == RawLine(tokens[n].key, tokens[n].value, Pending(tokens, n))
  {
    hide Pending;
    if i < |RawLines(tokens, m - 1)| {
      n := LineOfRaw(tokens, m - 1, i);
    } else {
      n := m - 1;
    }
  }

  lemma TokenPair(line: string)
    ensures match ParseLine(line)
            case Pair(key, value) => TokenOf(line) == KeyLine(key, value)
            case _ => !TokenOf(line).KeyLine?
  {
  }

  lemma TurnsOffIgnoresHint(a: RawLine, b: RawLine, p: string)
    requires a.key == b.key && a.value == b.value
    ensures TurnsOff(a, p) <==> TurnsOff(b, p)
  {
    hide OffValue, Upper;
  }

  lemma SwitchedOffIsDisabled(lines: seq<string>, key: string)
    ensures SwitchedOff(lines, key) <==> InDisabledGroup(key, RawLines(Tokens(lines), |lines|))
  {
    hide TurnsOff, ParseLine, TokenOf, RawLines, Pending, Upper;
    var tokens, raw := Tokens(lines), RawLines(Tokens(lines), |lines|);
    if SwitchedOff(lines, key) {
      var n, p :| 0 <= n < |lines| && LineTurnsOff(lines[n], p) && p <= Upper(key);
      TokenPair(lines[n]);
      RawLineOf(tokens, n, |lines|);
      var i := |RawLines(tokens, n)|;
      TurnsOffIgnoresHint(raw[i], raw[i].(hint := None), p);
      assert TurnsOff(raw[i], p);
    }
    if InDisabledGroup(key, raw) {
      var i, p :| 0 <= i < |raw| && TurnsOff(raw[i], p) && p <= Upper(key);
      var n := LineOfRaw(tokens, |lines|, i);
      TokenPair(lines[n]);
      TurnsOffIgnoresHint(raw[i], raw[i].(hint := None), p);
      assert LineTurnsOff(lines[n], p);
    }
  }

  /** A raw line that came from line n has the class the text says. */
  lemma RawHasClass(lines: seq<string>, n: nat, i: nat, c: EnvClass)
    requires n < |lines| && ParseLine(lines[n]).Pair?
    requires var raw := RawLines(Tokens(lines), |lines|);
      i < |raw| && raw[i] == RawLine(ParseLine(lines[n]).key, ParseLine(lines[n]).value, Pending(Tokens(lines), n))
    ensures ClassifyAll(RawLines(Tokens(lines), |lines|))[i].class_ == c <==> LineHasClass(lines, n, c)
  {
    var raw := RawLines(Tokens(lines), |lines|);
    hide RawLines, Pending, Tokens, ParseLine, Hinted, SwitchedOff, InDisabledGroup, IsSensitiveName, Trim,
      DisabledPrefixes, HasDisabledPrefix;
    SwitchedOffIsDisabled(lines, raw[i].key);
    DisabledExactly(raw[i].key, raw);
    forall h
      ensures Hinted(lines, n, h) <==> raw[i].hint == Some(h)
    {
      HintedIsPending(lines, n, h);
    }
    if raw[i].hint.Some? { assert Hinted(lines, n, raw[i].hint.value); }
  }

  lemma EntryOfRaw(raw: seq<RawLine>, i: nat)
    requires i < |raw|
    ensures |ClassifyAll(raw)| == |raw| && ClassifyAll(raw)[i].key == raw[i].key
  {
    hide DisabledPrefixes, Classify;
  }

  lemma EntryFromLine(text: string, i: nat) returns (n: nat)
    requires i < |ClassifyExample(text)|
    ensures n < |Lines(text)| && ParseLine(Lines(text)[n]).Pair?
    ensures ParseLine(Lines(text)[n]).key == ClassifyExample(text)[i].key
    ensures forall c :: ClassifyExample(text)[i].class_ == c <==> LineHasClass(Lines(text), n, c)
  {
    var lines := Lines(text);
    hide Lines, RawLines, Pending, ParseLine, TokenOf, LineHasClass, ClassifyAll, DisabledPrefixes, Classify;
    n := LineOfRaw(Tokens(lines), |lines|, i);
    TokenPair(lines[n]);
    EntryOfRaw(RawLines(Tokens(lines), |lines|), i);
    forall c { RawHasClass(lines, n, i, c); }
  }

  /** The entry of line n, which is as far down as there are keys before: it has the class the text gives the line. */
  lemma EntryOfLine(text: string, n: nat) returns (i: nat)
    requires n < |Lines(text)| && ParseLine(Lines(text)[n]).Pair?
    ensures i == |KeysOf(ParseAll(Lines(text))[..n])|
    ensures i < |ClassifyExample(text)| && ParseLine(Lines(text)[n]).key == ClassifyExample(text)[i].key
    ensures forall c :: ClassifyExample(text)[i].class_ == c <==> LineHasClass(Lines(text), n, c)
  {
    var lines := Lines(text);
    hide Lines, RawLines, Pending, ParseLine, TokenOf, LineHasClass, ClassifyAll, DisabledPrefixes, Classify;
    TokenPair(lines[n]);
    RawLineOf(Tokens(lines), n, |lines|);
    i := |RawLines(Tokens(lines), n)|;
    RawLinesAreKeyLines(lines, n);
    EntryOfRaw(RawLines(Tokens(lines), |lines|), i);
    forall c { RawHasClass(lines, n, i, c); }
  }

  ghost predicate GivesClass(lines: seq<string>, n: nat, k: string, c: EnvClass)
    requires n < |lines|
  {
    ParseLine(lines[n]).Pair? && ParseLine(lines[n]).key == k && LineHasClass(lines, n, c)
  }

  ghost predicate SomeLineGives(lines: seq<string>, k: string, c: EnvClass) {
    exists n :: 0 <= n < |lines| && GivesClass(lines, n, k, c)
  }

  /**
   From the text alone: a key is in the list of a class exactly when some line gives it that
   class, by the hint that reaches the line or, without one, by the switches of the whole file,
   its default and its name.
   */
  lemma ClassFromText(text: string, k: string, c: EnvClass)
    ensures k in KeysOfClass(ClassifyExample(text), c) <==> SomeLineGives(Lines(text), k, c)
  {
    hide Lines, ParseLine, LineHasClass, ClassifyExample, KeysOfClass;
    var lines, es := Lines(text), ClassifyExample(text);
    KeysOfClassHolds(es, k, c);
    if i :| 0 <= i < |es| && es[i].key == k && es[i].class_ == c {
      var n := EntryFromLine(text, i);
      assert GivesClass(lines, n, k, c);
    }
    if n :| 0 <= n < |lines| && GivesClass(lines, n, k, c) {
      var i := EntryOfLine(text, n);
      assert es[i].key == k;
    }
  }

  lemma {:induction false} KeysOfClassHolds(es: seq<EnvEntry>, k: string, c: EnvClass)
    ensures k in KeysOfClass(es, c) <==> exists i :: 0 <= i < |es| && es[i].key == k && es[i].class_ == c
  {
    if es != [] {
      var front := es[..|es| - 1];
      KeysOfClassHolds(front, k, c);
      assert forall i | 0 <= i < |front| :: es[i] == front[i];
    }
  }
}
