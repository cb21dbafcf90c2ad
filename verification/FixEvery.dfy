/** The fix round for every config, example and env file: which keys it declares, and when it suffices. */
module FixEvery {
  import opened Prelude
  import opened Text
  import opened EnvText
  import opened EnvKeys
  import opened Reports
  import opened Checks
  import opened FixPlans
  import opened FixApply
  import opened FixLoop
  import InitCfg

  ghost predicate Wanted(cfg: EnvConfig, k: string) { k in cfg.required || k in cfg.recommended }

  /** The text the round appends to: the copied example where a create is planned. */
  function BaseText(cfg: EnvConfig, example: Option<string>, env: Option<string>): string {
    if env.None? && example.Some? && AllMissingKeys(cfg, env) != [] then CopyText(example.value) else TextOf(env)
  }

  /** The keys it appends: what the sentences yield, and of the last group only where a create is planned. */
  function KeysToAppend(cfg: EnvConfig, example: Option<string>, env: Option<string>): seq<string> {
    var req, rec := Missing(cfg.required, env), Missing(cfg.recommended, env);
    if env.None? && example.Some? && rec != [] then Appended(ShouldHave, rec)
    else Appended(MustHave, req) + Appended(ShouldHave, rec)
  }

  /** A key that the base declares, or that an appended line gives, the first one behind the base's last line. */
  ghost predicate Supplied(base: string, keys: seq<string>, k: string) {
    || k in ReadKeys(base)
    || (keys != [] && NoEquals(OpenLine(base)) && KeyBefore(OpenLine(base) + keys[0]) == Some(k))
    || (keys != [] && SomeReadsAs(keys[1..], k))
  }

  /** One of the keys, appended on a line of its own, is read as k. */
  ghost predicate SomeReadsAs(keys: seq<string>, k: string) {
    exists i :: 0 <= i < |keys| && KeyBefore(keys[i]) == Some(k)
  }

  lemma FirstOrLater(keys: seq<string>, k: string)
    requires keys != []
    ensures SomeReadsAs(keys, k) <==> KeyBefore(keys[0]) == Some(k) || SomeReadsAs(keys[1..], k)
  {
    hide KeyBefore;
    assert forall i | 1 <= i < |keys| :: keys[i] == keys[1..][i - 1];
  }

  // ------------------------------------------------ the text, key by key

  lemma PlaceholderKeys(keys: seq<string>, k: string)
    requires forall i | 0 <= i < |keys| :: Plain(keys[i])
    ensures k in ReadKeys(Placeholders(keys)) <==> SomeReadsAs(keys, k)
  {
    hide KeyBefore, ParseLine;
    var ls := PlaceholderLines(keys);
    assert forall i | 0 <= i < |ls| :: OneLine(ls[i]) && DropCR(ls[i]) == ls[i];
    LinesOfUnlines(ls);
    assert Lines(Placeholders(keys)) == ls;
    forall i | 0 <= i < |ls|
      ensures Gives(ParseAll(ls)[i], k) <==> KeyBefore(keys[i]) == Some(k)
    {
      KeyBeforeIsRead(keys[i]);
    }
    hide Lines, Placeholders, KeysOf, Gives;
    KeysComeFromLines(ParseAll(ls), k);
  }

  ghost predicate AllPlain(keys: seq<string>) { forall i | 0 <= i < |keys| :: Plain(keys[i]) }

  lemma SuppliedExactly(base: string, keys: seq<string>, k: string)
    requires AllPlain(keys)
    ensures k in ReadKeys(base + Placeholders(keys)) <==> Supplied(base, keys, k)
  {
    if keys == [] {
      assert base + Placeholders(keys) == base;
    } else {
      FirstPlain(keys);
      hide ReadKeys, ParseLine, Placeholders, OpenLine, ClosedPart, KeyBefore, Plain;
      var p, l := ClosedPart(base), OpenLine(base);
      OpenParts(base);
      OpenAppendKeys(p, l, keys);
      OpenKeys(base);
      FirstKeySupplied(l, keys[0], k);
      PlaceholderKeys(keys[1..], k);
      hide SomeReadsAs;
    }
  }

  lemma FirstPlain(keys: seq<string>)
    requires keys != [] && AllPlain(keys)
    ensures OneLine(keys[0]) && NoEquals(keys[0]) && AllPlain(keys[1..])
  {
  }

  /** The line the first appended key lands on. */
  lemma FirstKeySupplied(l: string, x: string, k: string)
    requires NoEquals(x)
    ensures k in KeyPart(ParseLine(l + x + "=")) <==>
              k in KeyPart(ParseLine(l)) || (NoEquals(l) && KeyBefore(l + x) == Some(k))
  {
    hide ParseLine, KeyBefore;
    if NoEquals(l) {
      NoEqualsConcat(l, x);
      KeyBeforeIsRead(l + x);
      if ParseLine(l).Pair? { PairHasEquals(l); }
    } else {
      EqualsFixesKey(l, x + "=");
      Assoc(l, x, "=");
    }
  }

  // -------------------------------------------- what the sentences can yield

  ghost predicate Free(s: string, c: char) { forall i | 0 <= i < |s| :: s[i] != c }

  lemma FreeSlice(s: string, c: char, i: nat, j: nat)
    requires Free(s, c) && i <= j <= |s|
    ensures Free(s[i..j], c)
  {
  }

  lemma FreeTrim(s: string, c: char)
    requires Free(s, c)
    ensures Free(Trim(s), c)
  {
    var a, b := TrimParts(s);
    assert Trim(s) == s[|a|..|a| + |Trim(s)|];
    FreeSlice(s, c, |a|, |a| + |Trim(s)|);
  }

  lemma {:induction false} FreeParts(s: string, c: char)
    requires Free(s, c)
    ensures forall i | 0 <= i < |Split(s, ',')| :: Free(Split(s, ',')[i], c)
  {
    hide Free, IndexByteFrom;
    var i := IndexByte(s, ',');
    if i >= 0 {
      FreeSlice(s, c, 0, i);
      FreeSlice(s, c, i + 1, |s|);
      assert s[0..i] == s[..i] && s[i + 1..|s|] == s[i + 1..];
      FreeParts(s[i + 1..], c);
      SplitAtFirst(s, i);
    } else {
      SplitWhole(s, ',');
    }
  }

  lemma SplitAtFirst(s: string, i: nat)
    requires IndexByte(s, ',') == i
    ensures i < |s| && Split(s, ',') == [s[..i]] + Split(s[i + 1..], ',')
  {
    hide IndexByte, IndexByteFrom;
  }

  lemma {:induction false} FreeNonBlank(parts: seq<string>, c: char)
    requires forall i | 0 <= i < |parts| :: Free(parts[i], c)
    ensures forall i | 0 <= i < |NonBlank(parts)| :: Free(NonBlank(parts)[i], c)
  {
    hide Free, Trim;
    if parts != [] {
      FreeTrim(parts[0], c);
      FreeNonBlank(parts[1..], c);
    }
  }

  lemma ExtractedFree(blocker: string, c: char)
    requires Free(blocker, c)
    ensures forall i | 0 <= i < |ExtractMissingKeys(blocker)| :: Free(ExtractMissingKeys(blocker)[i], c)
  {
    hide Split, NonBlank, Trim, Free;
    var i := LastIndex(blocker, COLON_SPACE);
    if i >= 0 {
      var raw := blocker[i + 2..];
      FreeSlice(blocker, c, i + 2, |blocker|);
      assert raw == blocker[i + 2..|blocker|];
      FreeTrim(raw, c);
      FreeParts(Trim(raw), c);
      FreeNonBlank(Split(Trim(raw), ','), c);
    }
  }

  lemma {:induction false} FreeJoin(keys: seq<string>, c: char)
    requires c != ',' && c != ' ' && forall i | 0 <= i < |keys| :: Free(keys[i], c)
    ensures Free(Join(keys, ", "), c)
  {
    if |keys| > 1 { FreeJoin(keys[1..], c); }
  }

  lemma SentenceFree(w: Want, keys: seq<string>, c: char)
    requires (c == '\n' || c == '=') && forall i | 0 <= i < |keys| :: Free(keys[i], c)
    ensures Free(Sentence(w, keys), c)
  {
    FreeJoin(keys, c);
    hide Join;
    assert Free(SentenceStart(w), c);
  }

  lemma AppendedArePlain(w: Want, missing: seq<string>)
    requires AllPlain(missing)
    ensures AllPlain(Appended(w, missing))
  {
    hide Sentence, ExtractMissingKeys;
    var s := Sentence(w, missing);
    assert forall i | 0 <= i < |missing| :: Free(missing[i], '\n') && Free(missing[i], '=');
    SentenceFree(w, missing, '\n');
    SentenceFree(w, missing, '=');
    ExtractedFree(s, '\n');
    ExtractedFree(s, '=');
    ExtractedAreListable(s);
    var keys := ExtractMissingKeys(s);
    forall i | 0 <= i < |keys|
      ensures Plain(keys[i])
    {
      assert Listable(keys[i]) && Free(keys[i], '\n') && Free(keys[i], '=');
    }
  }

  lemma AppendKeysPlain(cfg: EnvConfig, example: Option<string>, env: Option<string>)
    requires forall k | Wanted(cfg, k) :: Plain(k)
    ensures AllPlain(KeysToAppend(cfg, example, env))
  {
    hide Plain, Appended;
    var req, rec := Missing(cfg.required, env), Missing(cfg.recommended, env);
    assert forall i | 0 <= i < |req| :: req[i] in req;
    assert forall i | 0 <= i < |rec| :: rec[i] in rec;
    AppendedArePlain(MustHave, req);
    AppendedArePlain(ShouldHave, rec);
  }

  // ----------------------------------------------------------- every round

  lemma RoundDeclares(cfg: EnvConfig, pre: seq<Item>, post: seq<Item>, example: Option<string>,
      env: Option<string>, k: string)
    requires NoEnvItems(pre) && NoEnvItems(post)
    ensures Declares(FixRound(cfg, pre, post, example, env), k) <==>
              k in ReadKeys(BaseText(cfg, example, env) + Placeholders(KeysToAppend(cfg, example, env)))
  {
    hide FixRound, ReadKeys, BaseText, KeysToAppend, Missing, RoundResult, Placeholders;
    RoundText(cfg, pre, post, example, env);
    ResultText(cfg, example, env);
    NoText(k);
  }

  /** The text of a round in one piece. */
  lemma ResultText(cfg: EnvConfig, example: Option<string>, env: Option<string>)
    ensures TextOf(RoundResult(Missing(cfg.required, env), Missing(cfg.recommended, env), example, env))
         == BaseText(cfg, example, env) + Placeholders(KeysToAppend(cfg, example, env))
  {
    NoneAppended();
    NothingAppended();
    hide CopyText, Appended, Placeholders, Missing;
    var req, rec := Missing(cfg.required, env), Missing(cfg.recommended, env);
    assert Appended(MustHave, req) + [] == Appended(MustHave, req);
  }

  lemma NoneAppended()
    ensures Appended(MustHave, []) == [] && Appended(ShouldHave, []) == []
  {
  }

  lemma NoText(k: string)
    ensures k !in ReadKeys("")
  {
  }

  /**
   For every config, example and env file: the next check is clean exactly when each wanted key
   can be a key at all, and is declared already, or copied, or given by an appended line.
   */
  lemma FixSuffices(cfg: EnvConfig, pre: seq<Item>, post: seq<Item>, example: Option<string>, env: Option<string>)
    requires NoEnvItems(pre) && NoEnvItems(post)
    ensures Clean(cfg, FixRound(cfg, pre, post, example, env)) <==>
              forall k | Wanted(cfg, k) ::
                  Plain(k) && Supplied(BaseText(cfg, example, env), KeysToAppend(cfg, example, env), k)
  {
    hide FixRound, ReadKeys, BaseText, KeysToAppend, Supplied, Plain, Clean;
    var after := FixRound(cfg, pre, post, example, env);
    var base, keys := BaseText(cfg, example, env), KeysToAppend(cfg, example, env);
    EnvCleanExactly(cfg, after);
    CleanMeansDeclared(cfg, after);
    forall k
      ensures Declares(after, k) <==> k in ReadKeys(base + Placeholders(keys))
      ensures Declares(after, k) ==> Plain(k)
    {
      RoundDeclares(cfg, pre, post, example, env, k);
      if Declares(after, k) { DeclaredKeysArePlain(after.value, k); }
    }
    if forall k | Wanted(cfg, k) :: Plain(k) {
      AppendKeysPlain(cfg, example, env);
      forall k
        ensures k in ReadKeys(base + Placeholders(keys)) <==> Supplied(base, keys, k)
      {
        SuppliedExactly(base, keys, k);
      }
    }
  }

  lemma CleanMeansDeclared(cfg: EnvConfig, after: Option<string>)
    ensures Clean(cfg, after) <==> forall k | Wanted(cfg, k) :: Declares(after, k)
  {
    EnvCleanExactly(cfg, after);
  }

  // ---------------------------------------------- ill-formed keys, exactly

  /** How an appended key is read: a plain one as itself unless it looks like a comment or an export. */
  lemma AppendedReadsAs(x: string)
    requires Plain(x)
    ensures KeyBefore(x) == Some(x) <==> !Strippable(x)
    ensures Strippable(x) && KeyBefore(x).Some? ==> |KeyBefore(x).value| < |x|
    ensures KeyBefore(x).Some? ==> Listable(x) ==> Listable(KeyBefore(x).value)
  {
    if !Strippable(x) {
      ReadableIsItself(x);
    } else {
      TrimLeftUnique(x, 0);
      assert x[0..] == x;
      hide Trim, TrimLeft;
      if EXPORT <= x {
        TrimNoLonger(x[|EXPORT|..]);
        TailListable(x);
      }
    }
  }

  lemma TailListable(x: string)
    requires EXPORT <= x
    ensures Listable(x) && Trim(x[|EXPORT|..]) != "" ==> Listable(Trim(x[|EXPORT|..]))
  {
    var r := x[|EXPORT|..];
    if Listable(x) {
      SliceKeepsNoColonSpace(x, |EXPORT|, |x|);
      assert r == x[|EXPORT|..|x|] && NoComma(r);
      TrimClean(r);
    }
  }

  /** An env file that ends its lines, or nothing at all to start from. */
  predicate PlainStart(example: Option<string>, env: Option<string>) {
    match env
    case Some(e) => Terminated(e)
    case None => example.None?
  }

  lemma SuppliedFromPlainStart(cfg: EnvConfig, example: Option<string>, env: Option<string>, k: string)
    requires PlainStart(example, env) && k in AllMissingKeys(cfg, env)
    requires AllPlain(KeysToAppend(cfg, example, env))
    requires Supplied(BaseText(cfg, example, env), KeysToAppend(cfg, example, env), k)
    ensures SomeReadsAs(KeysToAppend(cfg, example, env), k)
  {
    hide KeysToAppend, ReadKeys, Plain;
    var base, keys := BaseText(cfg, example, env), KeysToAppend(cfg, example, env);
    assert base == TextOf(env) && OpenLine(base) == "";
    assert !Declares(env, k);
    NoText(k);
    assert k !in ReadKeys(base);
    SuppliedOnOwnLines(base, keys, k);
  }

  /** Behind a text that ends its lines every appended key has a line of its own. */
  lemma SuppliedOnOwnLines(base: string, keys: seq<string>, k: string)
    requires Terminated(base)
    ensures Supplied(base, keys, k) <==> k in ReadKeys(base) || SomeReadsAs(keys, k)
  {
    hide ReadKeys, KeyBefore;
    if keys != [] {
      assert "" + keys[0] == keys[0];
      FirstOrLater(keys, k);
    }
  }

  ghost predicate AllGiven(missing: seq<string>, keys: seq<string>) {
    forall k | k in missing :: SomeReadsAs(keys, k)
  }

  /** The longest key that is stripped again is given by no other. */
  lemma {:induction false} NoneStrippable(missing: seq<string>, k: string)
    requires AllGiven(missing, missing) && AllPlain(missing) && k in missing && Strippable(k)
    ensures false
    decreases Longest(missing) - |k|
  {
    hide KeyBefore, Plain, Strippable;
    assert SomeReadsAs(missing, k);
    var i :| 0 <= i < |missing| && KeyBefore(missing[i]) == Some(k);
    AppendedReadsAs(missing[i]);
    NoneStrippable(missing, missing[i]);
  }

  function Longest(ks: seq<string>): (n: nat)
    ensures forall i | 0 <= i < |ks| :: |ks[i]| <= n
  {
    if ks == [] then 0
    else
      var n := Longest(ks[..|ks| - 1]);
      if |ks[|ks| - 1]| > n then |ks[|ks| - 1]| else n
  }

  lemma GivenAreListable(missing: seq<string>, keys: seq<string>)
    requires AllGiven(missing, keys) && AllPlain(keys) && AllListable(keys)
    ensures AllListable(missing)
  {
    hide KeyBefore, Plain, Listable;
    forall j | 0 <= j < |missing|
      ensures Listable(missing[j])
    {
      assert missing[j] in missing && SomeReadsAs(keys, missing[j]);
      var i :| 0 <= i < |keys| && KeyBefore(keys[i]) == Some(missing[j]);
      AppendedReadsAs(keys[i]);
    }
  }

  lemma AppendKeysListable(cfg: EnvConfig, example: Option<string>, env: Option<string>)
    ensures AllListable(KeysToAppend(cfg, example, env))
  {
    hide Sentence, ExtractMissingKeys, Listable;
    ExtractedAreListable(Sentence(MustHave, Missing(cfg.required, env)));
    ExtractedAreListable(Sentence(ShouldHave, Missing(cfg.recommended, env)));
  }

  lemma ListableAppendAsTheyAre(cfg: EnvConfig, example: Option<string>, env: Option<string>)
    requires PlainStart(example, env) && AllListable(AllMissingKeys(cfg, env))
    ensures KeysToAppend(cfg, example, env) == AllMissingKeys(cfg, env)
  {
    hide Missing, Listable, Appended;
    var req, rec := Missing(cfg.required, env), Missing(cfg.recommended, env);
    assert forall i | 0 <= i < |req| :: req[i] == (req + rec)[i];
    assert forall i | 0 <= i < |rec| :: rec[i] == (req + rec)[|req| + i];
    AppendedListable(MustHave, req);
    AppendedListable(ShouldHave, rec);
  }

  lemma SuppliedMeansWellFormed(cfg: EnvConfig, example: Option<string>, env: Option<string>)
    requires PlainStart(example, env)
    requires forall k | Wanted(cfg, k) ::
              Plain(k) && Supplied(BaseText(cfg, example, env), KeysToAppend(cfg, example, env), k)
    ensures AllWellFormed(AllMissingKeys(cfg, env))
  {
    hide Plain, Supplied, BaseText, KeysToAppend, Listable, Strippable, KeyBefore;
    var missing, keys := AllMissingKeys(cfg, env), KeysToAppend(cfg, example, env);
    AppendKeysPlain(cfg, example, env);
    forall k | k in missing
      ensures Plain(k) && SomeReadsAs(keys, k)
    {
      assert Wanted(cfg, k);
      SuppliedFromPlainStart(cfg, example, env, k);
    }
    AppendKeysListable(cfg, example, env);
    GivenAreListable(missing, keys);
    ListableAppendAsTheyAre(cfg, example, env);
    assert forall i | 0 <= i < |missing| :: missing[i] in missing;
    forall i | 0 <= i < |missing|
      ensures WellFormed(missing[i])
    {
      if Strippable(missing[i]) { NoneStrippable(missing, missing[i]); }
    }
  }

  /**
   From an env file that ends its lines, or from nothing: one round suffices exactly when every
   missing key is well-formed. One ill-formed key is enough to keep the check unclean.
   */
  lemma FixSufficesForWellFormed(cfg: EnvConfig, pre: seq<Item>, post: seq<Item>, example: Option<string>,
      env: Option<string>)
    requires PlainStart(example, env) && NoEnvItems(pre) && NoEnvItems(post)
    ensures Clean(cfg, FixRound(cfg, pre, post, example, env)) <==> AllWellFormed(AllMissingKeys(cfg, env))
  {
    hide FixRound, Plain, Supplied, BaseText, KeysToAppend, WellFormed;
    FixSuffices(cfg, pre, post, example, env);
    if AllWellFormed(AllMissingKeys(cfg, env)) {
      if env.Some? { NothingIsFresh(env.value); }
      FixConvergesExactly(cfg, pre, post, example, env);
    } else if forall k | Wanted(cfg, k) ::
        Plain(k) && Supplied(BaseText(cfg, example, env), KeysToAppend(cfg, example, env), k) {
      SuppliedMeansWellFormed(cfg, example, env);
    }
  }

  // ------------------------------------------------------------ a second round

  /** A round that leaves no plain start for the next one changed nothing, and had nothing it could append. */
  lemma StuckRound(cfg: EnvConfig, pre: seq<Item>, post: seq<Item>, example: Option<string>, env: Option<string>)
    requires NoEnvItems(pre) && NoEnvItems(post) && !PlainStart(example, FixRound(cfg, pre, post, example, env))
    ensures FixRound(cfg, pre, post, example, env) == env
    ensures AllMissingKeys(cfg, env) == [] || !AllWellFormed(AllMissingKeys(cfg, env))
  {
    RoundText(cfg, pre, post, example, env);
    var req, rec := Missing(cfg.required, env), Missing(cfg.recommended, env);
    hide FixRound, Missing, Appended, Placeholders, Terminated, WellFormed;
    ResultEnds(req, rec, example, env);
    if AllWellFormed(req + rec) { WellFormedAppended(req, rec); }
  }

  lemma ResultEnds(req: seq<string>, rec: seq<string>, example: Option<string>, env: Option<string>)
    ensures PlainStart(example, RoundResult(req, rec, example, env)) || RoundResult(req, rec, example, env) == env
    ensures !PlainStart(example, RoundResult(req, rec, example, env)) ==>
              req + rec == [] || Appended(MustHave, req) + Appended(ShouldHave, rec) == []
  {
    hide Appended, Placeholders, CopyText, Terminated;
    var x, y := Appended(MustHave, req), Appended(ShouldHave, rec);
    if x + y != [] { PlaceholdersEnd(TextOf(env), x + y); }
    if example.Some? { CopyEnds(example.value, if rec == [] then x else y); }
  }

  lemma CopyEnds(example: string, keys: seq<string>)
    ensures Terminated(CopyText(example) + Placeholders(keys))
  {
    CopyReadBack(example);
    if keys == [] {
      assert CopyText(example) + Placeholders(keys) == CopyText(example);
    } else {
      PlaceholdersEnd(CopyText(example), keys);
    }
  }

  lemma WellFormedAppended(req: seq<string>, rec: seq<string>)
    requires AllWellFormed(req + rec)
    ensures Appended(MustHave, req) + Appended(ShouldHave, rec) == req + rec
  {
    hide Appended, Listable, Readable;
    assert forall i | 0 <= i < |req| :: req[i] == (req + rec)[i];
    assert forall i | 0 <= i < |rec| :: rec[i] == (req + rec)[|req| + i];
    AppendedListable(MustHave, req);
    AppendedListable(ShouldHave, rec);
  }

  /**
   For every config, example and env file: whatever one round left, the next one makes the
   check clean exactly when every key still missing then is well-formed.
   */
  lemma SecondRoundExactly(cfg: EnvConfig, pre: seq<Item>, post: seq<Item>, pre2: seq<Item>, post2: seq<Item>,
      example: Option<string>, env: Option<string>)
    requires NoEnvItems(pre) && NoEnvItems(post) && NoEnvItems(pre2) && NoEnvItems(post2)
    ensures var after := FixRound(cfg, pre, post, example, env);
      Clean(cfg, FixRound(cfg, pre2, post2, example, after)) <==> AllWellFormed(AllMissingKeys(cfg, after))
  {
    hide FixRound, PlainStart, WellFormed, Missing, Clean;
    var after := FixRound(cfg, pre, post, example, env);
    if PlainStart(example, after) {
      FixSufficesForWellFormed(cfg, pre2, post2, example, after);
    } else {
      StuckRound(cfg, pre, post, example, env);
      SameRound(cfg, pre, post, pre2, post2, example, env);
      NothingMissing(cfg, env);
    }
  }

  lemma SameRound(cfg: EnvConfig, pre: seq<Item>, post: seq<Item>, pre2: seq<Item>, post2: seq<Item>,
      example: Option<string>, env: Option<string>)
    requires NoEnvItems(pre) && NoEnvItems(post) && NoEnvItems(pre2) && NoEnvItems(post2)
    ensures FixRound(cfg, pre, post, example, env) == FixRound(cfg, pre2, post2, example, env)
  {
    hide *;
    RoundText(cfg, pre, post, example, env);
    RoundText(cfg, pre2, post2, example, env);
  }

  lemma NothingMissing(cfg: EnvConfig, env: Option<string>)
    ensures Clean(cfg, env) <==> AllMissingKeys(cfg, env) == []
  {
    hide Missing, Sentence;
  }

  // -------------------------------------------------------- init, then fix

  lemma WantedIsMissing(cfg: EnvConfig, example: string, k: string)
    requires Wanted(cfg, k)
    ensures BaseText(cfg, Some(example), None) == CopyText(example)
  {
    hide CopyText;
    AllMissing(cfg.required);
    AllMissing(cfg.recommended);
    assert k in AllMissingKeys(cfg, None);
  }

  /**
   After init and one fix from no env file the generated config is satisfied exactly when each
   wanted key is declared by the copied example, or an appended key reads as it.
   */
  lemma InitThenFixExactly(example: string, pre: seq<Item>, post: seq<Item>)
    requires NoEnvItems(pre) && NoEnvItems(post)
    ensures var cfg := InitCfg.EnvSection(example);
      Clean(cfg, FixRound(cfg, pre, post, Some(example), None)) <==>
      forall k | Wanted(cfg, k) ::
        k in ReadKeys(CopyText(example)) || SomeReadsAs(KeysToAppend(cfg, Some(example), None), k)
  {
    var cfg := InitCfg.EnvSection(example);
    InitCfg.SectionKeysDeclared(example);
    hide InitCfg.EnvSection, FixRound, KeysToAppend, CopyText, ReadKeys, Clean, Supplied, SomeReadsAs, Plain, BaseText;
    FixSuffices(cfg, pre, post, Some(example), None);
    CopyReadBack(example);
    forall k | Wanted(cfg, k)
      ensures Plain(k)
      ensures BaseText(cfg, Some(example), None) == CopyText(example)
      ensures Supplied(CopyText(example), KeysToAppend(cfg, Some(example), None), k) <==>
                k in ReadKeys(CopyText(example)) || SomeReadsAs(KeysToAppend(cfg, Some(example), None), k)
    {
      DeclaredKeysArePlain(example, k);
      WantedIsMissing(cfg, example, k);
      SuppliedOnOwnLines(CopyText(example), KeysToAppend(cfg, Some(example), None), k);
    }
  }
}
