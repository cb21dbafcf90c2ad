/** Where the keys of an env file stand, and what text appended to the file does to them. */
module EnvKeys {
  import opened Prelude
  import opened Text
  import opened EnvText

  // -------------------------------------------------- keys, line by line

  ghost predicate Gives(line: Line, k: string) { KeyPart(line) == [k] }

  lemma {:induction false} KeysComeFromLines(parsed: seq<Line>, k: string)
    ensures k in KeysOf(parsed) <==> exists i | 0 <= i < |parsed| :: Gives(parsed[i], k)
  {
    if parsed != [] {
      var rest := parsed[1..];
      KeysComeFromLines(rest, k);
      assert forall i | 0 < i < |parsed| :: parsed[i] == rest[i - 1];
      assert k in KeyPart(parsed[0]) <==> Gives(parsed[0], k);
    }
  }

  lemma KeyOnLine(line: string, k: string) returns (raw: string, val: string)
    requires OneLine(line) && Gives(ParseLine(line), k)
    ensures CopyLine(line) == raw + "=" + val
    ensures k == Trim(raw) != "" && NoEquals(raw) && OneLine(raw) && (val != "" ==> !IsSpace(val[|val| - 1]))
  {
    hide CopyLine, ParseLine, Trim, TrimLeft, IsSecretName, LeadingKey;
    var v: string;
    raw, v := RewrittenLine(line);
    val := SafeDefault(raw, v);
    CopyLineIsOneLine(line);
    assert raw + "=" + val == raw + ("=" + val);
    PrefixOneLine(raw, "=" + val);
  }

  lemma PrefixOneLine(s: string, t: string)
    requires OneLine(s + t)
    ensures OneLine(s)
  {
    assert forall i | 0 <= i < |s| :: s[i] == (s + t)[i];
  }

  /** A declared key stands on one of the lines, and is what a copy writes there. */
  lemma KeyOnTextLine(text: string, k: string) returns (i: nat, raw: string, val: string)
    requires k in ReadKeys(text)
    ensures i < |Lines(text)| && CopyLine(Lines(text)[i]) == raw + "=" + val
    ensures k == Trim(raw) != "" && NoEquals(raw) && OneLine(raw) && (val != "" ==> !IsSpace(val[|val| - 1]))
  {
    hide CopyLine, ParseLine, Gives, KeysOf, Lines, Trim;
    var ls := Lines(text);
    KeysComeFromLines(ParseAll(ls), k);
    i :| 0 <= i < |ls| && Gives(ParseAll(ls)[i], k);
    LinesAreOneLine(text);
    raw, val := KeyOnLine(ls[i], k);
  }

  /** What every key of every file looks like. */
  ghost predicate Plain(k: string) { k != "" && Trimmed(k) && OneLine(k) && NoEquals(k) }

  lemma DeclaredKeysArePlain(text: string, k: string)
    requires k in ReadKeys(text)
    ensures Plain(k)
  {
    var i, raw, val := KeyOnTextLine(text, k);
    hide ReadKeys;
    var a, b := TrimParts(raw);
    assert k == raw[|a|..|a| + |k|];
    OneLineSlice(raw, |a|, |a| + |k|);
  }

  // ------------------------------------------------------- appending lines

  lemma ReadKeysAppend(a: string, b: string)
    requires Terminated(a)
    ensures ReadKeys(a + b) == ReadKeys(a) + ReadKeys(b)
  {
    LinesAppend(a, b);
    ParseAllConcat(Lines(a), Lines(b));
    KeysConcat(ParseAll(Lines(a)), ParseAll(Lines(b)));
  }

  /** The unfinished last line of a text. */
  function OpenLine(e: string): (r: string)
    ensures |r| <= |e| && OneLine(r) && Terminated(e[..|e| - |r|]) && e == e[..|e| - |r|] + r
    ensures r == "" <==> Terminated(e)
  {
    e[LastLineStart(e, |e|)..]
  }

  function LastLineStart(e: string, j: nat): (n: nat)
    requires j <= |e|
    ensures n <= j && (n > 0 ==> e[n - 1] == '\n')
    ensures forall i | n <= i < j :: e[i] != '\n'
  {
    if j > 0 && e[j - 1] != '\n' then LastLineStart(e, j - 1) else j
  }

  function ClosedPart(e: string): string { e[..|e| - |OpenLine(e)|] }

  lemma OpenParts(e: string)
    ensures e == ClosedPart(e) + OpenLine(e) && Terminated(ClosedPart(e)) && OneLine(OpenLine(e))
  {
  }

  lemma ReadKeysLine(l: string)
    requires OneLine(l)
    ensures ReadKeys(l + "\n") == KeyPart(ParseLine(l))
    ensures ReadKeys(l) == KeyPart(ParseLine(l))
  {
    LinesStep(l, "");
    assert l + "\n" + "" == l + "\n";
    assert Lines(l + "\n") == [DropCR(l)];
    KeysOfOne(l);
    if l != "" {
      assert IndexByte(l, '\n') < 0;
      assert Lines(l) == [DropCR(l)];
    } else {
      TrimOfTrimmed("");
    }
  }

  lemma KeysOfOne(l: string)
    ensures KeysOf(ParseAll([DropCR(l)])) == KeyPart(ParseLine(l))
  {
    ParseDropCR(l);
    var ps := ParseAll([DropCR(l)]);
    assert ps == [ParseLine(DropCR(l))] && ps[1..] == [];
  }

  lemma OpenKeys(e: string)
    ensures ReadKeys(e) == ReadKeys(ClosedPart(e)) + KeyPart(ParseLine(OpenLine(e)))
  {
    hide ReadKeys, ParseLine, ClosedPart, OpenLine;
    OpenParts(e);
    ReadKeysAppend(ClosedPart(e), OpenLine(e));
    ReadKeysLine(OpenLine(e));
  }

  lemma ReadKeysAround(p: string, l: string, rest: string)
    requires Terminated(p) && OneLine(l)
    ensures ReadKeys(p + (l + "\n" + rest)) == ReadKeys(p) + KeyPart(ParseLine(l)) + ReadKeys(rest)
  {
    hide ReadKeys, ParseLine;
    var line := l + "\n";
    calc {
      ReadKeys(p + (line + rest));
      { ReadKeysAppend(p, line + rest); }
      ReadKeys(p) + ReadKeys(line + rest);
      { assert Terminated(line); ReadKeysAppend(line, rest); }
      ReadKeys(p) + (ReadKeys(line) + ReadKeys(rest));
      { ReadKeysLine(l); Assoc(ReadKeys(p), KeyPart(ParseLine(l)), ReadKeys(rest)); }
      ReadKeys(p) + KeyPart(ParseLine(l)) + ReadKeys(rest);
    }
  }

  // --------------------------------- text behind a line that has its '='

  /** Whatever follows a line, trimming the longer line keeps the trimmed line in front. */
  lemma TrimOfLonger(line: string, x: string) returns (more: string)
    requires Trim(line) != ""
    ensures Trim(line + x) == Trim(line) + more && Trimmed(Trim(line) + more) && Trimmed(Trim(line))
  {
    hide Trim, AllSpace;
    var a, b := TrimParts(line);
    more := TrimBehind(a, Trim(line), b + x);
    Assoc(a + Trim(line), b, x);
  }

  lemma TrimBehind(a: string, t: string, y: string) returns (more: string)
    requires AllSpace(a) && Trimmed(t) && t != ""
    ensures Trim(a + t + y) == t + more && Trimmed(t + more)
  {
    hide Trim;
    var n := BackOverSpaces(y, |y|);
    more := y[..n];
    var m := t + more;
    assert m[0] == t[0] && m[|m| - 1] == if n > 0 then y[n - 1] else t[|t| - 1];
    TrimUnique(a, m, y[n..]);
    assert y == more + y[n..];
    Assoc(a, t, more);
    Assoc(a + t, more, y[n..]);
  }

  lemma BareOfLonger(t: string, more: string)
    requires IndexByte(Bare(t), '=') >= 0
    ensures Bare(t + more) == Bare(t) + more
  {
    var s := t + more;
    if EXPORT <= t {
      assert s[..|EXPORT|] == t[..|EXPORT|];
      assert s[|EXPORT|..] == t[|EXPORT|..] + more;
    } else {
      var eq := IndexByte(t, '=');
      assert s[eq] == '=';
      if |t| >= |EXPORT| {
        assert s[..|EXPORT|] == t[..|EXPORT|];
      } else {
        assert EXPORT[eq] != '=';
      }
    }
  }

  lemma BareKeepsEquals(t: string)
    ensures IndexByte(t, '=') >= 0 <==> IndexByte(Bare(t), '=') >= 0
  {
    if EXPORT <= t {
      assert forall i | 0 <= i < |EXPORT| :: t[i] != '=';
      assert forall i | 0 <= i < |Bare(t)| :: Bare(t)[i] == t[|EXPORT| + i];
    }
  }

  lemma KeyOfLonger(t: string, more: string)
    requires t != "" && IndexByte(t, '=') >= 0
    ensures KeyPart(ParseTrimmed(t + more)) == KeyPart(ParseTrimmed(t))
  {
    BareKeepsEquals(t);
    BareOfLonger(t, more);
    var bare, eq := Bare(t), IndexByte(Bare(t), '=');
    hide Bare, Trim;
    assert (t + more)[0] == t[0];
    assert forall i | 0 <= i <= eq :: (bare + more)[i] == bare[i];
    IndexByteUnique(bare + more, '=', eq);
    assert (bare + more)[..eq] == bare[..eq];
  }

  /** A line that has an '=' keeps its key, or stays without one, whatever is written behind it. */
  lemma EqualsFixesKey(line: string, x: string)
    requires !NoEquals(line)
    ensures KeyPart(ParseLine(line + x)) == KeyPart(ParseLine(line))
  {
    hide Trim, ParseTrimmed;
    EqualsInCore(line);
    var more := TrimOfLonger(line, x);
    KeyOfLonger(Trim(line), more);
  }

  lemma EqualsInCore(line: string)
    requires !NoEquals(line)
    ensures Trim(line) != "" && IndexByte(Trim(line), '=') >= 0
  {
    var a, b := TrimParts(line);
    var t := Trim(line);
    hide Trim;
    var i :| 0 <= i < |line| && line[i] == '=';
    assert forall k | 0 <= k < |a| :: line[k] == a[k];
    assert forall k | |a| + |t| <= k < |line| :: line[k] == b[k - |a| - |t|];
    assert t[i - |a|] == '=';
    assert '=' in t;
  }

  lemma PairHasEquals(line: string)
    requires ParseLine(line).Pair?
    ensures !NoEquals(line)
  {
    var a, b := TrimParts(line);
    var t := Trim(line);
    hide Trim;
    BareKeepsEquals(t);
    var i := IndexByte(t, '=');
    assert line[|a| + i] == t[i];
  }

  lemma OneLineConcat(l: string, s: string)
    ensures OneLine(l + s) <==> OneLine(l) && OneLine(s)
  {
    assert forall i | 0 <= i < |l| :: (l + s)[i] == l[i];
    assert forall i | 0 <= i < |s| :: (l + s)[|l| + i] == s[i];
  }

  lemma KeysAmong(x: seq<string>, y: seq<string>, y': seq<string>, z: seq<string>)
    requires forall k | k in y :: k in y'
    ensures forall k | k in x + y :: k in x + y' + z
  {
  }

  /** A text is one unfinished line, or a line and the rest. */
  lemma FirstBreak(s: string) returns (l: string, rest: string)
    ensures OneLine(l) && (s == l || s == l + "\n" + rest)
  {
    var i := IndexByte(s, '\n');
    if i < 0 {
      l, rest := s, "";
    } else {
      l, rest := s[..i], s[i + 1..];
    }
  }

  /** Appending any text at all to a file keeps every key it declares. */
  lemma AppendingKeepsKeys(e: string, s: string)
    ensures forall k | k in ReadKeys(e) :: k in ReadKeys(e + s)
  {
    hide *;
    OpenParts(e);
    OpenKeys(e);
    var p, l := ClosedPart(e), OpenLine(e);
    var s0, rest := FirstBreak(s);
    OneLineConcat(l, s0);
    KeyBehind(l, s0);
    if s == s0 {
      Assoc(p, l, s);
      ReadKeysAppend(p, l + s);
      ReadKeysLine(l + s);
      KeysAmong(ReadKeys(p), KeyPart(ParseLine(l)), KeyPart(ParseLine(l + s)), []);
      assert ReadKeys(e + s) + [] == ReadKeys(e + s);
    } else {
      RegroupLine(p, l, s0, rest);
      ReadKeysAround(p, l + s0, rest);
      KeysAmong(ReadKeys(p), KeyPart(ParseLine(l)), KeyPart(ParseLine(l + s0)), ReadKeys(rest));
    }
  }

  lemma KeyBehind(l: string, s: string)
    ensures forall k | k in KeyPart(ParseLine(l)) :: k in KeyPart(ParseLine(l + s))
  {
    hide ParseLine;
    if ParseLine(l).Pair? {
      PairHasEquals(l);
      EqualsFixesKey(l, s);
    }
  }

  lemma RegroupLine(p: string, l: string, s0: string, rest: string)
    ensures p + l + (s0 + "\n" + rest) == p + (l + s0 + "\n" + rest)
  {
    Assoc(p, l, s0 + "\n" + rest);
    Assoc(l, s0 + "\n", rest);
    Assoc(l, s0, "\n");
  }

  // ------------------------------------- a key appended behind some text

  /** The key of a line that reads s and then an '=' sign. */
  function KeyBefore(s: string): Option<string> {
    var t := TrimLeft(s);
    if t == "" || t[0] == '#' || Trim(Bare(t)) == "" then None else Some(Trim(Bare(t)))
  }

  function Keys(k: Option<string>): seq<string> {
    match k
    case None => []
    case Some(key) => [key]
  }

  lemma KeyBeforeIsRead(s: string)
    requires NoEquals(s)
    ensures KeyPart(ParseLine(s + "=")) == Keys(KeyBefore(s))
  {
    hide ParseLine, Trim, TrimLeft, Bare;
    ParseWritten(s, "");
    assert s + "=" + "" == s + "=";
  }

  /** A key the reader can find on a line of its own. */
  ghost predicate Readable(k: string) { Plain(k) && !Strippable(k) }

  lemma ReadableIsItself(k: string)
    requires Readable(k)
    ensures KeyBefore(k) == Some(k)
  {
    TrimLeftUnique(k, 0);
    assert k[0..] == k;
    TrimOfTrimmed(k);
  }

  /** White space, or an export waiting for its variable. */
  predicate FreshLine(l: string) {
    Trim(l) == "" || (EXPORT <= TrimLeft(l) && Trim(TrimLeft(l)[|EXPORT|..]) == "")
  }

  lemma TrimLeftBefore(l: string, k: string)
    requires k != "" && !IsSpace(k[0])
    ensures TrimLeft(l + k) == TrimLeft(l) + k
  {
    var n := SkipSpaces(l, 0);
    assert (l + k)[n] == if n < |l| then l[n] else k[0];
    assert forall i | 0 <= i < n :: (l + k)[i] == l[i];
    TrimLeftUnique(l + k, n);
    assert (l + k)[n..] == l[n..] + k;
  }

  lemma TrimBefore(r: string, k: string)
    requires k != "" && Trimmed(k)
    ensures Trim(r + k) == TrimLeft(r) + k
  {
    TrimLeftBefore(r, k);
    var s := TrimLeft(r) + k;
    assert s[|s| - 1] == k[|k| - 1];
    TrimRightUnique(s, |s|);
    assert s[..|s|] == s;
  }

  lemma BlankTrims(l: string)
    ensures Trim(l) == "" <==> TrimLeft(l) == ""
  {
    if TrimLeft(l) != "" { TrimLeftVisible(l); }
  }

  /** Behind a line without '=', a readable key reads as itself exactly when the line is fresh. */
  lemma FreshLineExactly(l: string, k: string)
    requires Readable(k)
    ensures KeyBefore(l + k) == Some(k) <==> FreshLine(l)
  {
    TrimLeftBefore(l, k);
    BlankTrims(l);
    ReadableIsItself(k);
    var u := TrimLeft(l);
    hide Trim, TrimLeft;
    if u == "" {
      assert u + k == k;
      BareReadable(k);
      TrimOfTrimmed(k);
    } else {
      assert (u + k)[0] == u[0];
      TrimLeftStarts(l);
      BehindVisible(u, k);
    }
  }

  lemma TrimLeftStarts(l: string)
    ensures TrimLeft(l) != "" ==> !IsSpace(TrimLeft(l)[0])
  {
  }

  lemma BareReadable(k: string)
    requires Readable(k)
    ensures Bare(k) == k && k[0] != '#'
  {
  }

  lemma BehindVisible(u: string, k: string)
    requires Readable(k) && u != "" && !IsSpace(u[0])
    ensures Trim(Bare(u + k)) == k <==> EXPORT <= u && Trim(u[|EXPORT|..]) == ""
  {
    hide Trim, Readable;
    ReadablePlain(k);
    assert |u| >= |EXPORT| ==> (u + k)[..|EXPORT|] == u[..|EXPORT|];
    if EXPORT <= u {
      BehindExport(u, k);
    } else if EXPORT <= u + k {
      TrimNoLonger((u + k)[|EXPORT|..]);
    } else {
      TrimOfJoined(u, k);
    }
  }

  lemma ReadablePlain(k: string)
    requires Readable(k)
    ensures k != "" && Trimmed(k)
  {
  }

  lemma BehindExport(u: string, k: string)
    requires k != "" && Trimmed(k) && EXPORT <= u
    ensures Trim(Bare(u + k)) == k <==> Trim(u[|EXPORT|..]) == ""
  {
    hide Trim, TrimLeft;
    var r := u[|EXPORT|..];
    assert (u + k)[..|EXPORT|] == u[..|EXPORT|];
    assert (u + k)[|EXPORT|..] == r + k;
    TrimBefore(r, k);
    BlankTrims(r);
    assert TrimLeft(r) + k == k <==> TrimLeft(r) == "";
  }

  lemma TrimOfJoined(u: string, k: string)
    requires k != "" && Trimmed(k) && u != "" && !IsSpace(u[0])
    ensures Trim(u + k) == u + k
  {
    hide Trim;
    assert (u + k)[0] == u[0] && (u + k)[|u + k| - 1] == k[|k| - 1];
    TrimOfTrimmed(u + k);
  }

  lemma FreshHasNoEquals(l: string)
    requires FreshLine(l)
    ensures NoEquals(l)
  {
    if !NoEquals(l) {
      EqualsInCore(l);
      EqualsBehindExport(l);
    }
  }

  lemma EqualsBehindExport(l: string)
    requires !NoEquals(l) && EXPORT <= TrimLeft(l)
    ensures Trim(TrimLeft(l)[|EXPORT|..]) != ""
  {
    var u := TrimLeft(l);
    var n := SkipSpaces(l, 0);
    var i :| 0 <= i < |l| && l[i] == '=';
    assert u[i - n] == '=';
    var r := u[|EXPORT|..];
    assert forall j | 0 <= j < |EXPORT| :: u[j] != '=';
    assert r[i - n - |EXPORT|] == '=';
    EqualsInCore(r);
  }
}
