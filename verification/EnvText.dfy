/**
 Dotenv text: which keys a file declares, and the safe copy of an example file
 in which every secret-named key is blank.
 */
module EnvText {
  import opened Prelude
  import opened Text

  // ----------------------------------------------------------- one line

  datatype Line = Blank | Comment | Malformed | Pair(key: string, value: string)

  const EXPORT := "export "

  function Bare(trimmed: string): string { TrimPrefix(trimmed, EXPORT) }

  function ParseLine(text: string): (r: Line)
    ensures r.Pair? ==> r.key != ""
  {
    ParseTrimmed(Trim(text))
  }

  function ParseTrimmed(line: string): (r: Line)
    ensures r.Pair? ==> r.key != ""
  {
    if line == "" then Blank
    else if line[0] == '#' then Comment
    else
      var bare := Bare(line);
      var eq := IndexByte(bare, '=');
      if eq <= 0 || Trim(bare[..eq]) == "" then Malformed
      else Pair(Trim(bare[..eq]), Trim(bare[eq + 1..]))
  }

  function ParseAll(lines: seq<string>): (r: seq<Line>)
    ensures |r| == |lines| && forall i | 0 <= i < |lines| :: r[i] == ParseLine(lines[i])
  {
    seq(|lines|, i requires 0 <= i < |lines| => ParseLine(lines[i]))
  }

  // ---------------------------------------------------------- the reader

  function KeyPart(line: Line): seq<string> {
    match line
    case Pair(key, _) => [key]
    case _ => []
  }

  function KeysOf(parsed: seq<Line>): seq<string> {
    if parsed == [] then [] else KeyPart(parsed[0]) + KeysOf(parsed[1..])
  }

  function ReadKeys(text: string): seq<string> { KeysOf(ParseAll(Lines(text))) }

  lemma {:induction false} KeysConcat(a: seq<Line>, b: seq<Line>)
    ensures KeysOf(a + b) == KeysOf(a) + KeysOf(b)
  {
    hide KeyPart;
    if a == [] {
      assert a + b == b;
    } else {
      KeysConcat(a[1..], b);
      assert (a + b)[1..] == a[1..] + b;
    }
  }

  lemma ParseAllConcat(a: seq<string>, b: seq<string>)
    ensures ParseAll(a + b) == ParseAll(a) + ParseAll(b)
  {
  }

  lemma KeysStep(parsed: seq<Line>, i: nat)
    requires i < |parsed|
    ensures KeysOf(parsed[..i + 1]) == KeysOf(parsed[..i]) + KeyPart(parsed[i])
  {
    assert parsed[..i + 1] == parsed[..i] + [parsed[i]];
    KeysConcat(parsed[..i], [parsed[i]]);
    assert [parsed[i]][1..] == [];
  }

  /** The reader's work on one line: its key, or "". */
  method KeyOnLine(text: string) returns (key: string)
    ensures KeyPart(ParseLine(text)) == if key == "" then [] else [key]
  {
    var line := Trim(text);
    if line == "" || line[0] == '#' {
      return "";
    }
    line := TrimPrefix(line, EXPORT);
    var eq := IndexByte(line, '=');
    if eq <= 0 {
      return "";
    }
    return Trim(line[..eq]);
  }

  /** The scanner loop. */
  method KeysOfLines(lines: seq<string>) returns (keys: seq<string>)
    ensures keys == KeysOf(ParseAll(lines))
  {
    hide ParseLine;
    keys := [];
    ghost var parsed := ParseAll(lines);
    for i := 0 to |lines|
      invariant keys == KeysOf(parsed[..i])
    {
      KeysStep(parsed, i);
      var key := KeyOnLine(lines[i]);
      if key != "" {
        keys := keys + [key];
      }
    }
    assert parsed[..|lines|] == parsed;
  }

  /** The keys a file declares, and whether there is a file. */
  method ReadEnvKeys(file: Option<string>) returns (keys: seq<string>, found: bool)
    ensures found == file.Some?
    ensures keys == if file.Some? then ReadKeys(file.value) else []
  {
    if file == None {
      return [], false;
    }
    keys := KeysOfLines(Lines(file.value));
    found := true;
  }

  // ------------------------------------------------------ the safe copy

  const SECRET_TERMS: seq<string> :=
    ["SECRET", "PASSWORD", "API_KEY", "TOKEN", "AUTH", "CREDENTIAL", "PRIVATE", "SIGNING"]

  predicate NamesAny(name: string, terms: seq<string>) {
    exists i | 0 <= i < |terms| :: Contains(Upper(name), terms[i])
  }

  predicate IsSecretName(name: string) { NamesAny(name, SECRET_TERMS) }

  function SafeDefault(key: string, val: string): string {
    if IsSecretName(key) then "" else val
  }

  function CopyLine(line: string): string {
    var trimmed := Trim(line);
    if trimmed == "" || trimmed[0] == '#' then line
    else
      var bare := Bare(trimmed);
      var eq := IndexByte(bare, '=');
      if eq < 0 then line
      else bare[..eq] + "=" + SafeDefault(bare[..eq], bare[eq + 1..])
  }

  function CopyLines(lines: seq<string>): (r: seq<string>)
    ensures |r| == |lines| && forall i | 0 <= i < |lines| :: r[i] == CopyLine(lines[i])
  {
    seq(|lines|, i requires 0 <= i < |lines| => CopyLine(lines[i]))
  }

  function CopyText(example: string): string { Unlines(CopyLines(Lines(example))) }

  /** The search safeDefault makes through the secret terms, in order. */
  method SafeDefaultOf(key: string, val: string) returns (r: string)
    ensures r == SafeDefault(key, val)
  {
    if val == "" {
      return "";
    }
    for i := 0 to |SECRET_TERMS|
      invariant forall j | 0 <= j < i :: !Contains(Upper(key), SECRET_TERMS[j])
    {
      if Contains(Upper(key), SECRET_TERMS[i]) {
        return "";
      }
    }
    return val;
  }

  /** What the builder writes for one line, without its newline. */
  method CopyOfLine(line: string) returns (r: string)
    ensures r == CopyLine(line)
  {
    hide Trim, SafeDefault, IndexByteFrom;
    var trimmed := Trim(line);
    if trimmed == "" || trimmed[0] == '#' {
      return line;
    }
    var bare := TrimPrefix(trimmed, EXPORT);
    var eq := IndexByte(bare, '=');
    if eq < 0 {
      return line;
    }
    var safe := SafeDefaultOf(bare[..eq], bare[eq + 1..]);
    return bare[..eq] + "=" + safe;
  }

  /** The builder loop over the example's lines. */
  method EnvFromExample(example: string) returns (content: string)
    ensures content == CopyText(example)
  {
    content := "";
    var lines := Lines(example);
    hide Lines, CopyLine, Unlines;
    assert Unlines([]) == "" by { NothingWritten(); }
    ghost var copied := CopyLines(lines);
    for i := 0 to |lines|
      invariant content == Unlines(copied[..i])
    {
      var line := CopyOfLine(lines[i]);
      assert copied[..i + 1] == copied[..i] + [line];
      UnlinesSnoc(copied[..i], line);
      content := content + line + "\n";
    }
    assert copied[..|lines|] == copied;
  }

  // ----------------------------------------- the copy keeps the meaning

  /** What a copied line should mean: the same pair, its value gone if the name is secret. */
  function Redact(line: Line): Line {
    match line
    case Pair(key, value) => Pair(key, SafeDefault(key, value))
    case _ => line
  }

  /**
   A line whose key, once "export " is off, again looks like an export or a comment: the copy
   writes the key at the start of the line, where the reader strips or skips it a second time.
   */
  predicate Restrips(line: string) {
    ParseLine(line).Pair? && Strippable(LeadingKey(line))
  }

  /** A key that reads as a comment or an export when it opens a line. */
  predicate Strippable(key: string) { key != "" && (key[0] == '#' || EXPORT <= key) }

  function LeadingKey(line: string): string
    requires ParseLine(line).Pair?
  {
    var bare := Bare(Trim(line));
    TrimLeft(bare[..IndexByte(bare, '=')])
  }

  lemma SecretTermsAreWords()
    ensures forall i | 0 <= i < |SECRET_TERMS| :: IsWord(SECRET_TERMS[i])
  {
    assert IsWord("SECRET") && IsWord("PASSWORD") && IsWord("API_KEY") && IsWord("TOKEN");
    assert IsWord("AUTH") && IsWord("CREDENTIAL") && IsWord("PRIVATE") && IsWord("SIGNING");
  }

  lemma NamesAnyOfTrim(s: string, terms: seq<string>)
    requires forall i | 0 <= i < |terms| :: IsWord(terms[i])
    ensures NamesAny(s, terms) <==> NamesAny(Trim(s), terms)
  {
    forall i | 0 <= i < |terms|
      ensures Contains(Upper(s), terms[i]) <==> Contains(Upper(Trim(s)), terms[i])
    {
      UpperContainsTrim(s, terms[i]);
    }
  }

  lemma SecretNameOfTrim(s: string)
    ensures IsSecretName(s) <==> IsSecretName(Trim(s))
  {
    SecretTermsAreWords();
    NamesAnyOfTrim(s, SECRET_TERMS);
  }

  lemma NamesAnyOfSlice(s: string, i: nat, j: nat, terms: seq<string>)
    requires i <= j <= |s| && NamesAny(s[i..j], terms)
    ensures NamesAny(s, terms)
  {
    var n :| 0 <= n < |terms| && Contains(Upper(s[i..j]), terms[n]);
    UpperContainsSlice(s, i, j, terms[n]);
  }

  ghost predicate NoEquals(s: string) { forall i | 0 <= i < |s| :: s[i] != '=' }

  lemma TrimWritten(raw: string, val: string)
    requires val != "" ==> !IsSpace(val[|val| - 1])
    ensures Trim(raw + "=" + val) == TrimLeft(raw) + "=" + val
  {
    hide Trim, AllSpace;
    var n := SkipSpaces(raw, 0);
    var core := raw[n..] + "=" + val;
    WrittenTrimmed(raw[n..], val);
    SpacesBefore(raw, n);
    TrimUnique(raw[..n], core, "");
    assert raw + "=" + val == raw[..n] + core + "";
  }

  lemma WrittenTrimmed(k: string, val: string)
    requires (k != "" ==> !IsSpace(k[0])) && (val != "" ==> !IsSpace(val[|val| - 1]))
    ensures Trimmed(k + "=" + val)
  {
    var core := k + "=" + val;
    assert core[|core| - 1] == if val == "" then '=' else val[|val| - 1];
    assert core[0] == if k == "" then '=' else k[0];
  }

  lemma SpacesBefore(s: string, n: nat)
    requires n == SkipSpaces(s, 0)
    ensures AllSpace(s[..n]) && AllSpace("")
  {
  }

  lemma SplitAtEquals(k: string, val: string)
    requires NoEquals(k)
    ensures var s := k + "=" + val; IndexByte(s, '=') == |k| && s[..|k|] == k && s[|k| + 1..] == val
  {
    IndexByteUnique(k + "=" + val, '=', |k|);
  }

  /** How the reader sees a line written as key, '=', value. */
  lemma ParseWritten(raw: string, val: string)
    requires NoEquals(raw) && (val != "" ==> !IsSpace(val[|val| - 1]))
    ensures var k := TrimLeft(raw);
      ParseLine(raw + "=" + val) ==
        if k == "" then Malformed
        else if k[0] == '#' then Comment
        else
          var k' := Bare(k);
          if Trim(k') == "" then Malformed else Pair(Trim(k'), Trim(val))
  {
    var k := TrimLeft(raw);
    var t := k + "=" + val;
    TrimWritten(raw, val);
    BareOfPair(k, val);
    SplitAtEquals(Bare(k), val);
    assert t[0] == if k == "" then '=' else k[0];
    assert Trim("") == "";
  }

  lemma BareOfPair(k: string, val: string)
    requires NoEquals(k)
    ensures Bare(k + "=" + val) == Bare(k) + "=" + val
  {
    var s := k + "=" + val;
    if EXPORT <= k {
      assert s[..|EXPORT|] == k[..|EXPORT|];
      assert s[|EXPORT|..] == k[|EXPORT|..] + "=" + val;
    } else if |k| < |EXPORT| {
      assert s[|k|] == '=' && EXPORT[|k|] != '=';
    } else {
      assert s[..|EXPORT|] == k[..|EXPORT|];
    }
  }

  /** The pieces of a line that the copy rewrites. */
  lemma RewrittenLine(line: string) returns (raw: string, val: string)
    requires ParseLine(line).Pair?
    ensures ParseLine(line) == Pair(Trim(raw), Trim(val)) && Trim(raw) != ""
    ensures CopyLine(line) == raw + "=" + SafeDefault(raw, val)
    ensures TrimLeft(raw) == LeadingKey(line)
    ensures NoEquals(raw) && (val != "" ==> !IsSpace(val[|val| - 1]))
  {
    hide IsSecretName, Trim, TrimLeft;
    var a, b := TrimParts(line);
    var t := Trim(line);
    var bare := Bare(t);
    var eq := IndexByte(bare, '=');
    raw, val := bare[..eq], bare[eq + 1..];
    assert forall i | 0 <= i < |raw| :: raw[i] == bare[i];
    if val != "" { assert val[|val| - 1] == t[|t| - 1]; }
  }

  /** Lines that are not pairs come out as they were, or stay malformed. */
  lemma CopyOfNonPair(line: string)
    requires !ParseLine(line).Pair?
    ensures ParseLine(CopyLine(line)) == ParseLine(line)
    ensures ParseLine(line) != Malformed ==> CopyLine(line) == line
  {
    hide IsSecretName, Trim;
    var t := Trim(line);
    if t != "" && t[0] != '#' {
      var a, b := TrimParts(line);
      var eq := IndexByte(Bare(t), '=');
      if eq >= 0 { BlankKeyCopied(t, eq); }
    }
  }

  lemma BlankKeyCopied(t: string, eq: nat)
    requires t != "" && Trimmed(t) && eq == IndexByte(Bare(t), '=')
    requires eq == 0 || Trim(Bare(t)[..eq]) == ""
    ensures var bare := Bare(t); ParseLine(bare[..eq] + "=" + SafeDefault(bare[..eq], bare[eq + 1..])) == Malformed
  {
    TrimOfTrimmed("");
    hide IsSecretName, Trim, ParseLine;
    var bare := Bare(t);
    var raw, val := bare[..eq], bare[eq + 1..];
    assert forall i | 0 <= i < |raw| :: raw[i] == bare[i];
    if val != "" { assert val[|val| - 1] == t[|t| - 1]; }
    BlankKeyStaysMalformed(raw, SafeDefault(raw, val));
  }

  lemma BlankKeyStaysMalformed(raw: string, val: string)
    requires NoEquals(raw) && Trim(raw) == "" && (val != "" ==> !IsSpace(val[|val| - 1]))
    ensures ParseLine(raw + "=" + val) == Malformed
  {
    ParseWritten(raw, val);
    TrimAfterTrimLeft(raw);
    if TrimLeft(raw) != "" { TrimLeftVisible(raw); }
  }

  lemma TrimLeftVisible(s: string)
    requires TrimLeft(s) != ""
    ensures Trim(s) != "" && Trim(s)[0] == TrimLeft(s)[0]
  {
    var l := TrimLeft(s);
    assert BackOverSpaces(l, |l|) > 0;
  }

  lemma DefaultOfTrim(raw: string, val: string)
    ensures Trim(SafeDefault(raw, val)) == SafeDefault(Trim(raw), Trim(val))
  {
    TrimOfTrimmed("");
    SecretNameOfTrim(raw);
  }

  /** How a written pair is read: as itself exactly when its key is not stripped again. */
  lemma WrittenPairRead(raw: string, val: string)
    requires NoEquals(raw) && Trim(raw) != "" && (val != "" ==> !IsSpace(val[|val| - 1]))
    ensures var p := ParseLine(raw + "=" + val);
      if Strippable(TrimLeft(raw)) then KeyPart(p) != [Trim(raw)] else p == Pair(Trim(raw), Trim(val))
  {
    hide ParseLine, TrimLeft;
    ParseWritten(raw, val);
    TrimAfterTrimLeft(raw);
    TrimOfTrimmed("");
    var k := TrimLeft(raw);
    if EXPORT <= k {
      var r := k[|EXPORT|..];
      assert k == EXPORT + r;
      StrippedKeyIsShorter(r);
    }
    hide Trim;
  }

  /** A copied line means what it should exactly when its key is not stripped twice. */
  lemma CopyLineKeepsMeaning(line: string)
    ensures ParseLine(CopyLine(line)) == Redact(ParseLine(line)) <==> !Restrips(line)
    ensures Restrips(line) <==> KeyPart(ParseLine(CopyLine(line))) != KeyPart(ParseLine(line))
  {
    hide ParseLine, CopyLine, LeadingKey, IsSecretName, Trim, TrimLeft, Strippable;
    if ParseLine(line).Pair? {
      var raw, val := RewrittenLine(line);
      WrittenPairRead(raw, SafeDefault(raw, val));
      DefaultOfTrim(raw, val);
    } else {
      CopyOfNonPair(line);
    }
  }

  const EXPORT_WORD := "export"

  /** With "export " in front, trimming keeps at least that word more. */
  lemma StrippedKeyIsShorter(r: string)
    ensures |Trim(r)| < |Trim(EXPORT + r)|
  {
    hide Trim, AllSpace;
    var a, b := TrimParts(r);
    if Trim(r) == "" {
      ExportAlone(a + Trim(r) + b);
    } else {
      ExportThen(a, Trim(r), b);
    }
  }

  lemma ExportAlone(r: string)
    requires Trim(r) == ""
    ensures Trim(EXPORT + r) == EXPORT_WORD
  {
    hide Trim;
    var a, b := TrimParts(r);
    var s := " " + r;
    assert AllSpace(s);
    TrimUnique("", EXPORT_WORD, s);
    assert EXPORT + r == "" + EXPORT_WORD + s;
  }

  lemma ExportThen(a: string, m: string, b: string)
    requires AllSpace(b) && Trimmed(m) && m != ""
    ensures Trim(EXPORT + (a + m + b)) == EXPORT + (a + m)
  {
    hide Trim;
    var core := EXPORT + (a + m);
    assert core[0] == 'e' && core[|core| - 1] == m[|m| - 1];
    TrimUnique("", core, b);
    assert EXPORT + (a + m + b) == "" + core + b;
  }

  ghost predicate KeysNoMore(p: seq<Line>, q: seq<Line>) {
    |p| == |q| && forall i | 0 <= i < |p| :: |KeyPart(q[i])| <= |KeyPart(p[i])|
  }

  lemma {:induction false} KeysOfFewer(p: seq<Line>, q: seq<Line>)
    requires KeysNoMore(p, q)
    ensures |KeysOf(q)| <= |KeysOf(p)|
  {
    if p != [] { KeysOfFewer(p[1..], q[1..]); }
  }

  /** A line-by-line change that only drops or renames keys shows in the key sequence. */
  lemma {:induction false} KeysOfSameExactly(p: seq<Line>, q: seq<Line>)
    requires KeysNoMore(p, q)
    ensures KeysOf(q) == KeysOf(p) <==> forall i | 0 <= i < |p| :: KeyPart(q[i]) == KeyPart(p[i])
  {
    if p != [] {
      KeysOfSameExactly(p[1..], q[1..]);
      KeysOfFewer(p[1..], q[1..]);
      var x, y := KeyPart(p[0]), KeyPart(q[0]);
      assert KeysOf(p)[|x|..] == KeysOf(p[1..]) && KeysOf(q)[|y|..] == KeysOf(q[1..]);
      if |x| == |y| == 1 {
        assert KeysOf(p)[0] == x[0] && KeysOf(q)[0] == y[0];
      }
      assert (forall i | 0 <= i < |p| :: KeyPart(q[i]) == KeyPart(p[i])) <==>
             y == x && forall i | 0 <= i < |p[1..]| :: KeyPart(q[1..][i]) == KeyPart(p[1..][i]) by {
        assert forall i | 0 < i < |p| :: p[i] == p[1..][i - 1] && q[i] == q[1..][i - 1];
      }
    }
  }

  lemma CopyLineIsOneLine(line: string)
    requires OneLine(line)
    ensures OneLine(CopyLine(line))
  {
    BareOneLine(line);
    hide SafeDefault, Trim, IndexByteFrom, OneLine, Bare;
    var bare := Bare(Trim(line));
    var eq := IndexByte(bare, '=');
    if eq >= 0 { RewrittenOneLine(bare, eq); }
  }

  lemma BareOneLine(line: string)
    requires OneLine(line)
    ensures OneLine(Bare(Trim(line)))
  {
    var a, b := TrimParts(line);
    var t := Trim(line);
    assert t == line[|a|..|a| + |t|];
    hide Trim;
    OneLineSlice(line, |a|, |a| + |t|);
    OneLineSlice(t, |t| - |Bare(t)|, |t|);
  }

  lemma RewrittenOneLine(bare: string, eq: nat)
    requires OneLine(bare) && eq < |bare|
    ensures OneLine(bare[..eq] + "=" + SafeDefault(bare[..eq], bare[eq + 1..]))
  {
    OneLineSlice(bare, 0, eq);
    OneLineSlice(bare, eq + 1, |bare|);
  }

  /** The lines read back from the copy, position by position. */
  lemma CopyReadBack(example: string)
    ensures var ls, cs := Lines(example), Lines(CopyText(example));
      |cs| == |ls| && (forall i | 0 <= i < |ls| :: cs[i] == DropCR(CopyLine(ls[i])))
    ensures Terminated(CopyText(example))
  {
    LinesAreOneLine(example);
    forall i | 0 <= i < |Lines(example)|
      ensures OneLine(CopyLines(Lines(example))[i])
    {
      CopyLineIsOneLine(Lines(example)[i]);
    }
    LinesOfUnlines(CopyLines(Lines(example)));
  }

  lemma ParseDropCR(line: string)
    ensures ParseLine(DropCR(line)) == ParseLine(line)
  {
    TrimDropCR(line);
    hide Trim, ParseTrimmed;
  }

  ghost predicate Copyable(example: string) {
    forall i | 0 <= i < |Lines(example)| :: !Restrips(Lines(example)[i])
  }

  /** The copy of an example declares exactly the example's keys iff no key is stripped twice. */
  lemma CopyKeepsKeysExactly(example: string)
    ensures ReadKeys(CopyText(example)) == ReadKeys(example) <==> Copyable(example)
  {
    CopyReadBack(example);
    var ls, cs := Lines(example), Lines(CopyText(example));
    forall i | 0 <= i < |ls|
      ensures |KeyPart(ParseLine(cs[i]))| <= |KeyPart(ParseLine(ls[i]))|
      ensures KeyPart(ParseLine(cs[i])) == KeyPart(ParseLine(ls[i])) <==> !Restrips(ls[i])
    {
      CopiedLineKeys(ls[i]);
    }
    KeysOfSameExactly(ParseAll(ls), ParseAll(cs));
  }

  lemma CopiedLineKeys(line: string)
    ensures |KeyPart(ParseLine(DropCR(CopyLine(line))))| <= |KeyPart(ParseLine(line))|
    ensures KeyPart(ParseLine(DropCR(CopyLine(line)))) == KeyPart(ParseLine(line)) <==> !Restrips(line)
  {
    ParseDropCR(CopyLine(line));
    CopyLineKeepsMeaning(line);
    if !ParseLine(line).Pair? { CopyOfNonPair(line); }
  }

  /**
   Line by line the copy means the example redacted: pairs keep their key and every
   non-secret value, and blank and comment lines survive verbatim.
   */
  lemma CopyMeansRedacted(example: string, i: nat)
    requires i < |Lines(example)| && !Restrips(Lines(example)[i])
    ensures i < |Lines(CopyText(example))|
    ensures ParseLine(Lines(CopyText(example))[i]) == Redact(ParseLine(Lines(example)[i]))
    ensures ParseLine(Lines(example)[i]).Blank? || ParseLine(Lines(example)[i]).Comment? ==>
              Lines(CopyText(example))[i] == DropCR(Lines(example)[i])
  {
    CopyReadBack(example);
    var l := Lines(example)[i];
    ParseDropCR(CopyLine(l));
    CopyLineKeepsMeaning(l);
    if !ParseLine(l).Pair? { CopyOfNonPair(l); }
    hide Lines, ParseLine, CopyLine, CopyText, Restrips;
  }

  /** Whatever the example holds, no secret-named key ever has a value in the copy. */
  lemma CopyNeverHoldsSecrets(example: string, i: nat)
    requires i < |Lines(CopyText(example))|
    ensures var p := ParseLine(Lines(CopyText(example))[i]);
      p.Pair? && IsSecretName(p.key) ==> p.value == ""
  {
    CopyReadBack(example);
    var l := Lines(example)[i];
    ParseDropCR(CopyLine(l));
    if ParseLine(l).Pair? {
      CopiedPairIsSafe(l);
    } else {
      CopyOfNonPair(l);
    }
  }

  lemma CopiedPairIsSafe(line: string)
    requires ParseLine(line).Pair?
    ensures var p := ParseLine(CopyLine(line)); p.Pair? && IsSecretName(p.key) ==> p.value == ""
  {
    var raw, val := RewrittenLine(line);
    ParseWritten(raw, SafeDefault(raw, val));
    if IsSecretName(Bare(TrimLeft(raw))) { SecretNameInside(raw); }
    SecretNameOfTrim(Bare(TrimLeft(raw)));
    assert Trim("") == "";
  }

  lemma SecretNameInside(raw: string)
    requires IsSecretName(Bare(TrimLeft(raw)))
    ensures IsSecretName(raw)
  {
    var k := Bare(TrimLeft(raw));
    assert raw[|raw| - |k|..|raw|] == k;
    NamesAnyOfSlice(raw, |raw| - |k|, |raw|, SECRET_TERMS);
  }
}
