/** The captured missing keys, and what a created env file leaves of them. */
module EnvCapture {
  import opened Prelude
  import opened Text
  import opened EnvText
  import opened EnvKeys
  import Checks

  /** The example's keys, in order, that the env file does not declare; none without an example. */
  function MissingKeys(example: Option<string>, env: Option<string>): seq<string> {
    match example
    case None => []
    case Some(e) => Checks.Missing(ReadKeys(e), env)
  }

  method ContainsKey(keys: seq<string>, k: string) returns (found: bool)
    ensures found <==> k in keys
  {
    for i := 0 to |keys|
      invariant k !in keys[..i]
    {
      if keys[i] == k {
        return true;
      }
      assert keys[..i + 1] == keys[..i] + [keys[i]];
    }
    assert keys[..|keys|] == keys;
    return false;
  }

  method CaptureMissing(example: Option<string>, env: Option<string>) returns (missing: seq<string>)
    ensures missing == MissingKeys(example, env)
  {
    var exampleKeys, exampleExists := ReadEnvKeys(example);
    var envKeys, envExists := ReadEnvKeys(env);
    hide ReadKeys, Checks.Missing;
    missing := [];
    NoneMissing(env);
    if exampleExists && envExists {
      for i := 0 to |exampleKeys|
        invariant missing == Checks.Missing(exampleKeys[..i], env)
      {
        OneKeyMore(exampleKeys, i, env);
        var found := ContainsKey(envKeys, exampleKeys[i]);
        if !found {
          missing := missing + [exampleKeys[i]];
        }
      }
      assert exampleKeys[..|exampleKeys|] == exampleKeys;
    } else if exampleExists && !envExists {
      missing := missing + exampleKeys;
      Checks.AllMissing(exampleKeys);
    }
  }

  /** Captured as missing: the example's keys without the declared ones, in the example's order. */
  lemma MissingKeysExactly(example: Option<string>, env: Option<string>, k: string)
    ensures k in MissingKeys(example, env) <==>
              example.Some? && k in ReadKeys(example.value) && !(env.Some? && k in ReadKeys(env.value))
    ensures example.Some? && env == None ==> MissingKeys(example, env) == ReadKeys(example.value)
  {
    hide ReadKeys;
    if example.Some? { Checks.AllMissing(ReadKeys(example.value)); }
  }

  lemma NoneMissing(env: Option<string>)
    ensures Checks.Missing([], env) == []
  {
  }

  lemma OneKeyMore(keys: seq<string>, i: nat, env: Option<string>)
    requires i < |keys|
    ensures Checks.Missing(keys[..i + 1], env)
         == Checks.Missing(keys[..i], env) + if Checks.Declares(env, keys[i]) then [] else [keys[i]]
  {
    hide ReadKeys;
    assert keys[..i + 1][..i] == keys[..i];
  }

  // -------------------------------------------- after the env file is created

  /** A line of the example that gives the key, and is not stripped twice. */
  ghost predicate StandsSafely(example: string, k: string) {
    exists i | 0 <= i < |Lines(example)| :: Gives(ParseLine(Lines(example)[i]), k) && !Restrips(Lines(example)[i])
  }

  ghost predicate GivenBy(example: string, i: nat, k: string)
    requires i < |Lines(example)|
  {
    Gives(ParseLine(CopyLine(Lines(example)[i])), k)
  }

  lemma CopyKeyOrigin(example: string, k: string)
    ensures k in ReadKeys(CopyText(example)) <==> exists i | 0 <= i < |Lines(example)| :: GivenBy(example, i, k)
  {
    CopyReadBack(example);
    var ls, cs := Lines(example), Lines(CopyText(example));
    forall i | 0 <= i < |ls|
      ensures Gives(ParseAll(cs)[i], k) <==> GivenBy(example, i, k)
    {
      ParseDropCR(CopyLine(ls[i]));
    }
    hide Lines, CopyText, GivenBy, Gives, KeysOf;
    KeysComeFromLines(ParseAll(cs), k);
  }

  /** A key stripped twice comes out shorter, if at all, and only from a key that is strippable itself. */
  lemma RestrippedGivesShorter(line: string, x: string, k: string)
    requires Restrips(line) && Gives(ParseLine(line), x) && Gives(ParseLine(CopyLine(line)), k)
    ensures |k| < |x| && Strippable(x)
  {
    hide ParseLine, CopyLine, LeadingKey, IsSecretName, Trim, TrimLeft;
    var raw, val := RewrittenLine(line);
    WrittenShorter(raw, SafeDefault(raw, val), k);
  }

  lemma WrittenShorter(raw: string, val: string, k: string)
    requires NoEquals(raw) && Trim(raw) != "" && (val != "" ==> !IsSpace(val[|val| - 1]))
    requires Strippable(TrimLeft(raw)) && Gives(ParseLine(raw + "=" + val), k)
    ensures |k| < |Trim(raw)| && Strippable(Trim(raw))
  {
    hide ParseLine, TrimLeft;
    ParseWritten(raw, val);
    TrimAfterTrimLeft(raw);
    var t := TrimLeft(raw);
    var r := t[|EXPORT|..];
    assert t == EXPORT + r;
    StrippedKeyIsShorter(r);
    TrimOfExport(r);
  }

  lemma TrimOfExport(r: string)
    requires Trim(r) != ""
    ensures EXPORT <= Trim(EXPORT + r)
  {
    var a, b := TrimParts(r);
    var m := EXPORT + (a + Trim(r));
    assert m[0] == 'e' && m[|m| - 1] == Trim(r)[|Trim(r)| - 1];
    assert EXPORT + r == "" + m + b;
    TrimUnique("", m, b);
  }

  /** A strippable key stands on no safe line. */
  lemma StrippableNeverSafe(line: string, k: string)
    requires Gives(ParseLine(line), k) && Strippable(k)
    ensures Restrips(line)
  {
    hide ParseLine, CopyLine, IsSecretName, Trim, TrimLeft, LeadingKey;
    var raw, val := RewrittenLine(line);
    LeadingOfStrippable(raw);
  }

  lemma LeadingOfStrippable(raw: string)
    requires Strippable(Trim(raw))
    ensures Strippable(TrimLeft(raw))
  {
    var a, b := TrimParts(raw);
    var k := Trim(raw);
    TrimLeftUnique(raw, |a|);
    assert TrimLeft(raw) == k + b;
    assert (k + b)[0] == k[0];
    if EXPORT <= k { assert (k + b)[..|EXPORT|] == k[..|EXPORT|]; }
  }

  lemma SafeLineGivesKey(line: string, k: string)
    ensures !Restrips(line) ==> (Gives(ParseLine(CopyLine(line)), k) <==> Gives(ParseLine(line), k))
  {
    CopyLineKeepsMeaning(line);
  }

  ghost predicate AllStandSafely(example: string) { forall k | k in ReadKeys(example) :: StandsSafely(example, k) }

  /** The longest way to fail: an unsafe key is in the copy only thanks to a longer unsafe key. */
  lemma {:induction false} UnsafeKeyIsLost(example: string, k: string) returns (lost: string)
    requires k in ReadKeys(example) && !StandsSafely(example, k)
    ensures lost in ReadKeys(example) && lost !in ReadKeys(CopyText(example))
    decreases LongestLine(Lines(example)) - |k|
  {
    CopyKeyOrigin(example, k);
    if k !in ReadKeys(CopyText(example)) {
      lost := k;
    } else {
      var i :| 0 <= i < |Lines(example)| && GivenBy(example, i, k);
      var x := LongerUnsafeKey(example, i, k);
      lost := UnsafeKeyIsLost(example, x);
    }
  }

  lemma OnlyUnsafeLineGives(example: string, i: nat, k: string)
    requires i < |Lines(example)| && GivenBy(example, i, k) && !StandsSafely(example, k)
    ensures Restrips(Lines(example)[i])
  {
    hide Lines, ParseLine, CopyLine, Restrips, Gives;
    assert Gives(ParseLine(Lines(example)[i]), k) ==> Restrips(Lines(example)[i]);
    SafeLineGivesKey(Lines(example)[i], k);
  }

  lemma LongerUnsafeKey(example: string, i: nat, k: string) returns (x: string)
    requires i < |Lines(example)| && GivenBy(example, i, k) && !StandsSafely(example, k)
    ensures x in ReadKeys(example) && !StandsSafely(example, x)
    ensures |k| < |x| <= LongestLine(Lines(example))
  {
    var line := Lines(example)[i];
    hide Lines, ParseLine, CopyLine, Restrips, Strippable, ReadKeys;
    OnlyUnsafeLineGives(example, i, k);
    RestrippedLineIsPair(line);
    x := ParseLine(line).key;
    assert Gives(ParseLine(line), x);
    RestrippedGivesShorter(line, x, k);
    DeclaredByLine(example, i, x);
    KeyFitsLine(example, i, x);
    forall j | 0 <= j < |Lines(example)| && Gives(ParseLine(Lines(example)[j]), x)
      ensures Restrips(Lines(example)[j])
    {
      StrippableNeverSafe(Lines(example)[j], x);
    }
  }

  lemma RestrippedLineIsPair(line: string)
    requires Restrips(line)
    ensures ParseLine(line).Pair?
  {
  }

  lemma DeclaredByLine(example: string, i: nat, x: string)
    requires i < |Lines(example)| && Gives(ParseLine(Lines(example)[i]), x)
    ensures x in ReadKeys(example)
  {
    hide Lines, ParseLine, KeysOf, Gives;
    var ps := ParseAll(Lines(example));
    assert Gives(ps[i], x);
    KeysComeFromLines(ps, x);
  }

  function LongestLine(ls: seq<string>): (n: nat)
    ensures forall i | 0 <= i < |ls| :: |ls[i]| <= n
  {
    if ls == [] then 0
    else
      var n := LongestLine(ls[..|ls| - 1]);
      if |ls[|ls| - 1]| > n then |ls[|ls| - 1]| else n
  }

  lemma KeyFitsLine(example: string, i: nat, x: string)
    requires i < |Lines(example)| && Gives(ParseLine(Lines(example)[i]), x)
    ensures |x| <= LongestLine(Lines(example))
  {
    KeyNoLonger(Lines(example)[i], x);
  }

  lemma KeyNoLonger(line: string, x: string)
    requires Gives(ParseLine(line), x)
    ensures |x| <= |line|
  {
    hide Trim;
    var t := Trim(line);
    TrimNoLonger(line);
    var bare := Bare(t);
    var eq := IndexByte(bare, '=');
    if eq >= 0 { TrimNoLonger(bare[..eq]); }
  }

  /**
   A snapshot taken right after the env file was created from the example reports no missing
   key exactly when every example key stands on some line that is not stripped twice.
   */
  lemma CreatedFileMissesNothing(example: string)
    ensures MissingKeys(Some(example), Some(CopyText(example))) == [] <==> AllStandSafely(example)
  {
    hide ReadKeys, CopyText, StandsSafely;
    var missing := MissingKeys(Some(example), Some(CopyText(example)));
    assert missing != [] ==> missing[0] in missing;
    if AllStandSafely(example) {
      forall k | k in ReadKeys(example)
        ensures k in ReadKeys(CopyText(example))
      {
        SafeKeyIsCopied(example, k);
      }
    } else {
      var k :| k in ReadKeys(example) && !StandsSafely(example, k);
      var lost := UnsafeKeyIsLost(example, k);
      assert lost in missing;
    }
  }

  lemma SafeKeyIsCopied(example: string, k: string)
    requires StandsSafely(example, k)
    ensures k in ReadKeys(CopyText(example))
  {
    hide Lines, ParseLine, CopyLine, Restrips, Gives, ReadKeys, CopyText;
    var i :| 0 <= i < |Lines(example)| && Gives(ParseLine(Lines(example)[i]), k) && !Restrips(Lines(example)[i]);
    SafeLineGivesKey(Lines(example)[i], k);
    assert GivenBy(example, i, k);
    CopyKeyOrigin(example, k);
  }
}
