/** How one line of an env file is read, spelled out. */
module EnvLines {
  import opened Text
  import opened EnvText
  import opened EnvKeys

  lemma TrailingSpace(x: string, b: string)
    requires AllSpace(b)
    ensures Trim(x + b) == Trim(x)
  {
    var p, q := TrimParts(x);
    hide Trim;
    TrimUnique(p, Trim(x), q + b);
    assert p + Trim(x) + (q + b) == x + b;
    assert forall i | 0 <= i < |q + b| :: (q + b)[i] == if i < |q| then q[i] else b[i - |q|];
  }

  /** Blank lines hold white space only; comments open with a hash. */
  lemma LineKinds(text: string)
    ensures ParseLine(text).Blank? <==> AllSpace(text)
    ensures ParseLine(text).Comment? <==>
              exists i | 0 <= i < |text| :: AllSpace(text[..i]) && text[i] == '#'
  {
    var a, b := TrimParts(text);
    var t := Trim(text);
    hide Trim;
    assert text[..|a|] == a;
    if t != "" {
      assert text[|a|] == t[0];
      CoreStarts(text, a, t);
    } else {
      assert text == a + b;
      assert AllSpace(text);
    }
  }

  lemma CoreStarts(text: string, a: string, t: string)
    requires t != "" && !IsSpace(t[0]) && |a| < |text| && text[..|a|] == a && AllSpace(a) && text[|a|] == t[0]
    ensures !AllSpace(text)
    ensures (exists i | 0 <= i < |text| :: AllSpace(text[..i]) && text[i] == '#') <==> t[0] == '#'
  {
    assert forall i | |a| < i < |text| :: text[..i][|a|] == t[0];
    assert forall i | 0 <= i < |a| :: text[i] == a[i];
    assert !IsSpace('#');
  }

  ghost predicate GoodKey(key: string) {
    Plain(key) && key[0] != '#' && !("export " <= key)
  }

  /** A pair: white space around it, perhaps an export in front, then key, equals sign and value. */
  lemma PairLine(a: string, exported: bool, key: string, val: string, b: string)
    requires AllSpace(a) && AllSpace(b) && GoodKey(key) && (val != "" ==> !IsSpace(val[|val| - 1]))
    ensures ParseLine(a + (if exported then "export " else "") + key + "=" + val + b) == Pair(key, Trim(val))
  {
    var raw := a + (if exported then "export " else "") + key;
    RawKey(a, exported, key);
    hide ParseLine, Trim, TrimLeft, Bare;
    ParseWritten(raw, val);
    TrailingSpace(raw + "=" + val, b);
    SameTrimSameLine(raw + "=" + val + b, raw + "=" + val);
  }

  lemma SameTrimSameLine(x: string, y: string)
    requires Trim(x) == Trim(y)
    ensures ParseLine(x) == ParseLine(y)
  {
    hide Trim, ParseTrimmed;
  }

  /** The text before the equals sign, white space in front aside. */
  function Front(exported: bool, key: string): string { (if exported then "export " else "") + key }

  lemma RawKey(a: string, exported: bool, key: string)
    requires AllSpace(a) && GoodKey(key)
    ensures var raw := a + (if exported then "export " else "") + key;
      NoEquals(raw) && TrimLeft(raw) != "" && TrimLeft(raw)[0] != '#' && Trim(Bare(TrimLeft(raw))) == key
  {
    hide *;
    var rest := Front(exported, key);
    FrontReads(exported, key);
    FrontBehind(a, exported, key);
    SpaceInFront(a, rest);
    SpacesNoEquals(a, rest);
  }

  lemma FrontBehind(a: string, exported: bool, key: string)
    ensures a + (if exported then "export " else "") + key == a + Front(exported, key)
  {
  }

  lemma FrontReads(exported: bool, key: string)
    requires GoodKey(key)
    ensures var rest := Front(exported, key);
      rest != "" && !IsSpace(rest[0]) && rest[0] != '#' && NoEquals(rest) && Trim(Bare(rest)) == key
  {
    TrimOfTrimmed(key);
    ExportNoEquals(exported, key);
    FrontBare(exported, key);
    hide Trim, Bare;
    var rest := Front(exported, key);
    assert rest[0] == if exported then 'e' else key[0];
  }

  lemma FrontBare(exported: bool, key: string)
    requires exported || !("export " <= key)
    ensures Bare(Front(exported, key)) == key
  {
    var rest := Front(exported, key);
    assert exported ==> rest[..|EXPORT|] == "export " && rest[|EXPORT|..] == key;
    assert !exported ==> rest == key;
  }

  lemma SpaceInFront(a: string, rest: string)
    requires AllSpace(a) && rest != "" && !IsSpace(rest[0])
    ensures TrimLeft(a + rest) == rest
  {
    var s := a + rest;
    assert s[|a|] == rest[0] && s[|a|..] == rest;
    TrimLeftUnique(s, |a|);
  }

  lemma SpacesNoEquals(a: string, rest: string)
    requires AllSpace(a)
    ensures NoEquals(a + rest) <==> NoEquals(rest)
  {
    assert forall i | 0 <= i < |rest| :: (a + rest)[|a| + i] == rest[i];
  }

  lemma ExportNoEquals(exported: bool, key: string)
    requires NoEquals(key)
    ensures NoEquals((if exported then "export " else "") + key)
  {
  }

  /** Anything else is malformed, for one a line without an equals sign. */
  lemma NoEqualsNoPair(text: string)
    requires NoEquals(text) && !ParseLine(text).Blank? && !ParseLine(text).Comment?
    ensures ParseLine(text) == Malformed
  {
    hide ParseLine;
    if ParseLine(text).Pair? { PairHasEquals(text); }
  }
}
