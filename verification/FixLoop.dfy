/**
 The check, plan, apply, check loop on the env file, across four packages: when
 does one `fix safe` make the next check clean, and do two?
 */
module FixLoop {
  import opened Prelude
  import opened Text
  import opened EnvText
  import opened EnvKeys
  import opened Reports
  import opened Checks
  import opened FixPlans
  import opened FixApply
  import FixSafety

  ghost predicate Clean(cfg: EnvConfig, env: Option<string>) { EnvItems(cfg, env) == [] }

  ghost predicate NoEnvItems(items: seq<Item>) { forall it | it in items :: it.category != "Env" }

  function FilesOf(example: Option<string>, env: Option<string>): Files { Files(env.Some?, example.Some?) }

  /** The safe actions planned for a report whose env items stand between other items. */
  function PlannedActions(cfg: EnvConfig, pre: seq<Item>, post: seq<Item>, example: Option<string>,
      env: Option<string>): seq<Action> {
    InLane(AllFixes(pre + EnvItems(cfg, env) + post, FilesOf(example, env)), Safe)
  }

  /** The env file after one round of check, plan and apply. */
  function FixRound(cfg: EnvConfig, pre: seq<Item>, post: seq<Item>, example: Option<string>,
      env: Option<string>): Option<string> {
    EnvAfterAll(PlannedActions(cfg, pre, post, example, env), example, env)
  }

  /** The round as the program runs it, on the project directory. */
  method FixSafe(ws: Workspace, cfg: EnvConfig, pre: seq<Item>, post: seq<Item>, opts: Options)
    modifies ws`env
    ensures ws.env == if Writes(opts) then FixRound(cfg, pre, post, ws.example, old(ws.env)) else old(ws.env)
  {
    var r := new Report();
    r.items := pre;
    CheckEnv(r, cfg, ws.env);
    r.items := r.items + post;
    var plan := Build(r.items, Files(ws.env.Some?, ws.example.Some?));
    var _ := ws.ApplySafe(plan.safe, opts);
  }

  // ------------------------------------------------------ well-formed keys

  ghost predicate WellFormed(k: string) { Listable(k) && Readable(k) }

  ghost predicate AllWellFormed(keys: seq<string>) { forall i | 0 <= i < |keys| :: WellFormed(keys[i]) }

  ghost predicate AllListable(keys: seq<string>) { forall i | 0 <= i < |keys| :: Listable(keys[i]) }

  lemma PlaceholderParses(k: string)
    requires Readable(k)
    ensures ParseLine(k + "=") == Pair(k, "") && OneLine(k + "=") && DropCR(k + "=") == k + "="
  {
    ParseWritten(k, "");
    assert k + "=" + "" == k + "=";
    ReadableIsItself(k);
    TrimOfTrimmed("");
  }

  lemma PlaceholdersRead(keys: seq<string>)
    requires forall i | 0 <= i < |keys| :: Readable(keys[i])
    ensures ReadKeys(Placeholders(keys)) == keys && Terminated(Placeholders(keys))
  {
    var ls := PlaceholderLines(keys);
    forall i | 0 <= i < |keys|
      ensures ParseLine(ls[i]) == Pair(keys[i], "") && OneLine(ls[i]) && DropCR(ls[i]) == ls[i]
    {
      PlaceholderParses(keys[i]);
    }
    LinesOfUnlines(ls);
    assert Lines(Placeholders(keys)) == ls;
    KeysOfPairs(ParseAll(ls), keys);
  }

  lemma {:induction false} KeysOfPairs(parsed: seq<Line>, keys: seq<string>)
    requires |parsed| == |keys| && forall i | 0 <= i < |keys| :: parsed[i] == Pair(keys[i], "")
    ensures KeysOf(parsed) == keys
  {
    if keys != [] { KeysOfPairs(parsed[1..], keys[1..]); }
  }

  lemma {:induction false} UnlinesConcat(a: seq<string>, b: seq<string>)
    ensures Unlines(a + b) == Unlines(a) + Unlines(b)
  {
    if a == [] {
      assert a + b == b;
    } else {
      UnlinesConcat(a[1..], b);
      assert (a + b)[1..] == a[1..] + b;
    }
  }

  lemma PlaceholdersConcat(a: seq<string>, b: seq<string>)
    ensures Placeholders(a + b) == Placeholders(a) + Placeholders(b)
  {
    UnlinesConcat(PlaceholderLines(a), PlaceholderLines(b));
    assert PlaceholderLines(a + b) == PlaceholderLines(a) + PlaceholderLines(b);
  }

  // --------------------------------------------------- the text of a round

  lemma OnlyEnvItemsCount(pre: seq<Item>, items: seq<Item>, post: seq<Item>, files: Files)
    requires NoEnvItems(pre) && NoEnvItems(post)
    ensures SafeEnvActions(pre + items + post, files) == SafeEnvActions(items, files)
  {
    SafeEnvActionsConcat(pre + items, post, files);
    SafeEnvActionsConcat(pre, items, files);
    OtherItemsLeaveEnvAlone(pre, files);
    OtherItemsLeaveEnvAlone(post, files);
  }

  /** Other findings never matter: only the env items move the env file. */
  lemma RoundIsEnvActions(cfg: EnvConfig, pre: seq<Item>, post: seq<Item>, example: Option<string>, env: Option<string>)
    requires NoEnvItems(pre) && NoEnvItems(post)
    ensures EnvActions(PlannedActions(cfg, pre, post, example, env))
              == SafeEnvActions(EnvItems(cfg, env), FilesOf(example, env))
    ensures FixRound(cfg, pre, post, example, env)
         == EnvAfterAll(SafeEnvActions(EnvItems(cfg, env), FilesOf(example, env)), example, env)
  {
    OnlyEnvItemsCount(pre, EnvItems(cfg, env), post, FilesOf(example, env));
    EnvActionsSuffice(PlannedActions(cfg, pre, post, example, env), example, env);
  }

  lemma {:induction false} EnvAfterAllConcat(a: seq<Action>, b: seq<Action>, example: Option<string>,
      env: Option<string>)
    ensures EnvAfterAll(a + b, example, env) == EnvAfterAll(b, example, EnvAfterAll(a, example, env))
  {
    if b == [] {
      assert a + b == a;
    } else {
      assert (a + b)[..|a + b| - 1] == a + b[..|b| - 1];
      EnvAfterAllConcat(a, b[..|b| - 1], example, env);
    }
  }

  function TextOf(env: Option<string>): string {
    match env
    case None => ""
    case Some(e) => e
  }

  /** The keys the plan appends for a group: those its sentence yields. */
  function Appended(w: Want, missing: seq<string>): seq<string> {
    if missing == [] then [] else ExtractMissingKeys(Sentence(w, missing))
  }

  /** What the actions for one group of missing keys make of the env file. */
  function GroupEffect(w: Want, missing: seq<string>, files: Files, example: Option<string>,
      env: Option<string>): Option<string>
    requires files.exampleExists == example.Some?
  {
    var keys := Appended(w, missing);
    if missing == [] then env
    else if !files.envExists && files.exampleExists then Some(CopyText(example.value) + Placeholders(keys))
    else if keys == [] then env
    else Some(TextOf(env) + Placeholders(keys))
  }

  lemma AppendEffect(keys: seq<string>, example: Option<string>, env: Option<string>)
    ensures EnvAfterAll(AppendIf(keys), example, env) == if keys == [] then env
              else Some(TextOf(env) + Placeholders(keys))
  {
    assert APPEND_KEYS[0] != CREATE_ENV[0];
    assert [AppendAction(keys)][..0] == [];
  }

  lemma CreateEffect(files: Files, example: Option<string>, env: Option<string>)
    requires files.exampleExists == example.Some?
    ensures EnvAfterAll(CreateIf(files), example, env)
         == if !files.envExists && files.exampleExists then Some(CopyText(example.value)) else env
  {
    assert [CreateAction()][..0] == [];
  }

  lemma GroupActions(w: Want, missing: seq<string>, files: Files, example: Option<string>, env: Option<string>)
    requires files.exampleExists == example.Some?
    ensures EnvAfterAll(SafeEnvActions(GroupedItem(w, missing), files), example, env)
         == GroupEffect(w, missing, files, example, env)
  {
    hide *;
    if missing == [] {
      NothingPlanned(w, files, example, env);
    } else {
      var keys := Appended(w, missing);
      EnvItemShape(w, missing);
      ShapeOfGroup(w, missing);
      EnvItemActions(EnvItem(w, missing), files);
      EnvAfterAllConcat(CreateIf(files), AppendIf(keys), example, env);
      CreateEffect(files, example, env);
      AppendEffect(keys, example, EnvAfterAll(CreateIf(files), example, env));
      EffectOfGroup(w, missing, files, example, env);
    }
  }

  lemma ShapeOfGroup(w: Want, missing: seq<string>)
    requires missing != []
    ensures GroupedItem(w, missing) == [EnvItem(w, missing)]
    ensures Appended(w, missing) == ExtractMissingKeys(Sentence(w, missing))
  {
    hide EnvItem, ExtractMissingKeys, Sentence;
  }

  /** The effect of a group in two steps: the create, then the append. */
  lemma EffectOfGroup(w: Want, missing: seq<string>, files: Files, example: Option<string>, env: Option<string>)
    requires files.exampleExists == example.Some? && missing != []
    ensures var created := if !files.envExists && files.exampleExists then Some(CopyText(example.value)) else env;
      var keys := Appended(w, missing);
      GroupEffect(w, missing, files, example, env) ==
        if keys == [] then created else Some(TextOf(created) + Placeholders(keys))
  {
    NothingAppended();
    hide Appended, CopyText, Placeholders;
  }

  lemma NothingPlanned(w: Want, files: Files, example: Option<string>, env: Option<string>)
    requires files.exampleExists == example.Some?
    ensures SafeEnvActions(GroupedItem(w, []), files) == [] && EnvAfterAll([], example, env) == env
    ensures GroupEffect(w, [], files, example, env) == env
  {
  }

  lemma NothingAppended()
    ensures Placeholders([]) == "" && forall t: string :: t + "" == t
  {
  }

  lemma EnvItemShape(w: Want, missing: seq<string>)
    ensures EnvItem(w, missing).category == "Env" && EnvItem(w, missing).severity != Info
    ensures EnvItem(w, missing).blocker == Sentence(w, missing)
  {
  }

  /** The required group, then the recommended one. */
  function BothGroups(cfg: EnvConfig, example: Option<string>, env: Option<string>): Option<string> {
    var files := FilesOf(example, env);
    GroupEffect(ShouldHave, Missing(cfg.recommended, env), files, example,
                GroupEffect(MustHave, Missing(cfg.required, env), files, example, env))
  }

  lemma RoundIsTwoGroups(cfg: EnvConfig, pre: seq<Item>, post: seq<Item>, example: Option<string>, env: Option<string>)
    requires NoEnvItems(pre) && NoEnvItems(post)
    ensures FixRound(cfg, pre, post, example, env) == BothGroups(cfg, example, env)
  {
    hide Missing, FixRound, GroupEffect, SafeEnvActions, GroupedItem;
    var req, rec, files := Missing(cfg.required, env), Missing(cfg.recommended, env), FilesOf(example, env);
    RoundIsEnvActions(cfg, pre, post, example, env);
    SafeEnvActionsConcat(GroupedItem(MustHave, req), GroupedItem(ShouldHave, rec), files);
    EnvAfterAllConcat(SafeEnvActions(GroupedItem(MustHave, req), files),
                      SafeEnvActions(GroupedItem(ShouldHave, rec), files), example, env);
    GroupActions(MustHave, req, files, example, env);
    GroupActions(ShouldHave, rec, files, example, GroupEffect(MustHave, req, files, example, env));
  }

  /**
   The exact text a round leaves, for every config: what is appended is what the sentences yield,
   and without an env file but with an example each group starts over from the copied example.
   */
  function RoundResult(req: seq<string>, rec: seq<string>, example: Option<string>,
      env: Option<string>): Option<string> {
    var x, y := Appended(MustHave, req), Appended(ShouldHave, rec);
    if req + rec == [] then env
    else if env.None? && example.Some? then Some(CopyText(example.value) + Placeholders(if rec == [] then x else y))
    else if x + y == [] then env
    else Some(TextOf(env) + Placeholders(x + y))
  }

  lemma TwoGroupsText(req: seq<string>, rec: seq<string>, example: Option<string>, env: Option<string>)
    ensures var files := FilesOf(example, env);
      GroupEffect(ShouldHave, rec, files, example, GroupEffect(MustHave, req, files, example, env))
          == RoundResult(req, rec, example, env)
  {
    var x, y := Appended(MustHave, req), Appended(ShouldHave, rec);
    hide ExtractMissingKeys, Sentence, CopyText, Placeholders;
    PlaceholdersConcat(x, y);
    if y == [] { assert x + y == x; }
    if x == [] { assert x + y == y; }
    Assoc(TextOf(env), Placeholders(x), Placeholders(y));
  }

  lemma RoundText(cfg: EnvConfig, pre: seq<Item>, post: seq<Item>, example: Option<string>, env: Option<string>)
    requires NoEnvItems(pre) && NoEnvItems(post)
    ensures FixRound(cfg, pre, post, example, env)
         == RoundResult(Missing(cfg.required, env), Missing(cfg.recommended, env), example, env)
  {
    hide FixRound, GroupEffect, RoundResult, Missing;
    RoundIsTwoGroups(cfg, pre, post, example, env);
    TwoGroupsText(Missing(cfg.required, env), Missing(cfg.recommended, env), example, env);
  }

  /** Listable keys are appended as they are. */
  lemma AppendedListable(w: Want, missing: seq<string>)
    requires AllListable(missing)
    ensures Appended(w, missing) == missing
  {
    ListableReadBack(w, missing);
  }

  /** The text a round leaves when every missing key can stand in its sentence. */
  function FixedText(req: seq<string>, rec: seq<string>, example: Option<string>, env: Option<string>): Option<string> {
    if req + rec == [] then env
    else if env.None? && example.Some? then Some(CopyText(example.value) + Placeholders(if rec == [] then req else rec))
    else Some(TextOf(env) + Placeholders(req + rec))
  }

  lemma ListableText(cfg: EnvConfig, pre: seq<Item>, post: seq<Item>, example: Option<string>, env: Option<string>)
    requires NoEnvItems(pre) && NoEnvItems(post) && AllListable(AllMissingKeys(cfg, env))
    ensures FixRound(cfg, pre, post, example, env)
         == FixedText(Missing(cfg.required, env), Missing(cfg.recommended, env), example, env)
  {
    hide FixRound, Missing, Listable, Appended;
    var req, rec := Missing(cfg.required, env), Missing(cfg.recommended, env);
    assert forall i | 0 <= i < |req| :: req[i] == (req + rec)[i];
    assert forall i | 0 <= i < |rec| :: rec[i] == (req + rec)[|req| + i];
    RoundText(cfg, pre, post, example, env);
    AppendedListable(MustHave, req);
    AppendedListable(ShouldHave, rec);
  }

  // ----------------------------------------- placeholders behind a last line

  lemma FirstPlaceholder(keys: seq<string>)
    requires keys != []
    ensures Placeholders(keys) == keys[0] + "=" + "\n" + Placeholders(keys[1..])
  {
    assert PlaceholderLines(keys)[1..] == PlaceholderLines(keys[1..]);
  }

  lemma OpenAppendText(p: string, l: string, keys: seq<string>)
    requires keys != []
    ensures p + l + Placeholders(keys) == p + (l + keys[0] + "=" + "\n" + Placeholders(keys[1..]))
  {
    FirstPlaceholder(keys);
    RegroupLine(p, l, keys[0] + "=", Placeholders(keys[1..]));
    Assoc(l, keys[0], "=");
  }

  /** The keys of a file after placeholders are appended behind its last line. */
  lemma OpenAppendKeys(p: string, l: string, keys: seq<string>)
    requires Terminated(p) && OneLine(l) && keys != [] && OneLine(keys[0])
    ensures ReadKeys(p + l + Placeholders(keys))
         == ReadKeys(p) + KeyPart(ParseLine(l + keys[0] + "=")) + ReadKeys(Placeholders(keys[1..]))
  {
    hide ReadKeys, ParseLine, Placeholders;
    OpenAppendText(p, l, keys);
    OneLineConcat(l, keys[0]);
    OneLineConcat(l + keys[0], "=");
    ReadKeysAround(p, l + keys[0] + "=", Placeholders(keys[1..]));
  }

  // ----------------------------------------------------- convergence, exactly

  /**
   When one round suffices. With an env file: what stands behind its last newline is nothing,
   white space or an export without its variable, or the key appended there is appended once
   more. Without one: there is no example, or only one group of keys is wanted, or every
   required key stands in the copied example or among the recommended ones.
   */
  ghost predicate Converges(cfg: EnvConfig, example: Option<string>, env: Option<string>) {
    var missing := AllMissingKeys(cfg, env);
    missing == [] ||
    match env
    case Some(e) => FreshLine(OpenLine(e)) || missing[0] in missing[1..]
    case None =>
      || example.None? || cfg.required == [] || cfg.recommended == []
      || forall k | k in cfg.required :: k in ReadKeys(CopyText(example.value)) || k in cfg.recommended
  }

  function AllMissingKeys(cfg: EnvConfig, env: Option<string>): seq<string> {
    Missing(cfg.required, env) + Missing(cfg.recommended, env)
  }

  lemma CleanIsSubset(cfg: EnvConfig, before: Option<string>, after: string)
    ensures Clean(cfg, Some(after)) <==>
              forall k | k in cfg.required || k in cfg.recommended :: k in ReadKeys(after)
    ensures forall k | k in cfg.required || k in cfg.recommended ::
              Declares(before, k) || k in Missing(cfg.required, before) + Missing(cfg.recommended, before)
    ensures forall k | k in Missing(cfg.required, before) + Missing(cfg.recommended, before) ::
              (k in cfg.required || k in cfg.recommended) && !Declares(before, k)
  {
    EnvCleanExactly(cfg, Some(after));
  }

  /** The key behind the unfinished line: read as itself exactly on a fresh line. */
  lemma MergedKey(e: string, k: string)
    requires Readable(k) && k !in ReadKeys(e)
    ensures var merged := KeyPart(ParseLine(OpenLine(e) + k + "="));
      (merged == [k] <==> FreshLine(OpenLine(e)))
          && (KeyPart(ParseLine(OpenLine(e))) != [] ==> merged == KeyPart(ParseLine(OpenLine(e))))
  {
    hide ReadKeys, ParseLine, OpenLine, FreshLine, KeyBefore, Readable;
    var l := OpenLine(e);
    OpenKeys(e);
    if NoEquals(l) {
      ReadableNoEquals(k);
      NoEqualsConcat(l, k);
      KeyBeforeIsRead(l + k);
      FreshLineExactly(l, k);
      if ParseLine(l).Pair? { PairHasEquals(l); }
    } else {
      if FreshLine(l) { FreshHasNoEquals(l); }
      EqualsFixesKey(l, k + "=");
      Assoc(l, k, "=");
    }
  }

  lemma ReadableNoEquals(k: string)
    requires Readable(k)
    ensures NoEquals(k)
  {
  }

  lemma NoEqualsConcat(l: string, k: string)
    requires NoEquals(l) && NoEquals(k)
    ensures NoEquals(l + k)
  {
  }

  lemma KeysBehindOpenLine(e: string, missing: seq<string>)
    requires missing != [] && AllWellFormed(missing)
    ensures ReadKeys(e + Placeholders(missing))
         == ReadKeys(ClosedPart(e)) + KeyPart(ParseLine(OpenLine(e) + missing[0] + "=")) + missing[1..]
  {
    hide ReadKeys, ParseLine, Placeholders, OpenLine, ClosedPart;
    OpenParts(e);
    OpenAppendKeys(ClosedPart(e), OpenLine(e), missing);
    PlaceholdersRead(missing[1..]);
  }

  lemma ConvergesOpen(cfg: EnvConfig, e: string)
    requires AllMissingKeys(cfg, Some(e)) != [] && AllWellFormed(AllMissingKeys(cfg, Some(e)))
    ensures var missing := AllMissingKeys(cfg, Some(e));
      Clean(cfg, Some(e + Placeholders(missing))) <==> missing[0] in missing[1..] || FreshLine(OpenLine(e))
  {
    var missing := AllMissingKeys(cfg, Some(e));
    CleanIsSubset(cfg, Some(e), e + Placeholders(missing));
    assert WellFormed(missing[0]) && missing[0] in missing;
    hide ReadKeys, ParseLine, Placeholders, Missing, OpenLine, ClosedPart, FreshLine, KeyPart,
        Readable, Listable, Clean;
    KeysBehindOpenLine(e, missing);
    OpenKeys(e);
    MergedKey(e, missing[0]);
    var closed, open := ReadKeys(ClosedPart(e)), KeyPart(ParseLine(OpenLine(e)));
    var merged := KeyPart(ParseLine(OpenLine(e) + missing[0] + "="));
    AtMostOneKey(OpenLine(e) + missing[0] + "=");
    OpenCase(closed, open, merged, missing);
    assert forall k :: Declares(Some(e), k) <==> k in closed + open;
    OpenClean(cfg, closed + open, missing, closed + merged + missing[1..]);
  }

  lemma AtMostOneKey(line: string)
    ensures |KeyPart(ParseLine(line))| <= 1
  {
  }

  /** Clean for every wanted key is clean for every declared or missing one. */
  lemma OpenClean(cfg: EnvConfig, declared: seq<string>, missing: seq<string>, after: seq<string>)
    requires forall k | k in cfg.required || k in cfg.recommended :: k in declared || k in missing
    requires forall k | k in missing :: k in cfg.required || k in cfg.recommended
    requires forall k | k in declared :: k in after
    ensures (forall k | k in cfg.required || k in cfg.recommended :: k in after)
            <==> forall k | k in declared || k in missing :: k in after
  {
  }

  /** The set reasoning of the unfinished-line case: existing keys survive, only the first new one is at risk. */
  lemma OpenCase(closed: seq<string>, open: seq<string>, merged: seq<string>, missing: seq<string>)
    requires missing != [] && |merged| <= 1 && (open != [] ==> merged == open)
    requires forall k | k in missing :: k !in closed + open
    ensures (forall k | k in closed + open || k in missing :: k in closed + merged + missing[1..])
            <==> (missing[0] in missing[1..] || merged == [missing[0]])
    ensures forall k | k in closed + open :: k in closed + merged + missing[1..]
  {
    assert missing == [missing[0]] + missing[1..];
    assert missing[0] in missing;
    if merged != [] { assert merged == [merged[0]]; }
  }

  /**
   One round makes the next check clean exactly when Converges says so. Only the missing keys
   need be well-formed; keys that are declared already may look like anything.
   */
  lemma FixConvergesExactly(cfg: EnvConfig, pre: seq<Item>, post: seq<Item>, example: Option<string>,
      env: Option<string>)
    requires AllWellFormed(AllMissingKeys(cfg, env)) && NoEnvItems(pre) && NoEnvItems(post)
    ensures Clean(cfg, FixRound(cfg, pre, post, example, env)) <==> Converges(cfg, example, env)
  {
    hide FixRound, Readable, Listable;
    ListableText(cfg, pre, post, example, env);
    if AllMissingKeys(cfg, env) == [] {
      EnvCleanExactly(cfg, env);
    } else if env.Some? {
      ConvergesOpen(cfg, env.value);
    } else {
      AllMissing(cfg.required);
      AllMissing(cfg.recommended);
      ConvergesWithoutEnv(cfg, example);
    }
  }

  lemma KeysOfFixedText(req: seq<string>, rec: seq<string>, example: Option<string>)
    requires AllWellFormed(req) && AllWellFormed(rec) && req + rec != []
    ensures var after := FixedText(req, rec, example, None);
      && after.Some?
      && ReadKeys(after.value) ==
         if example.Some? then ReadKeys(CopyText(example.value)) + (if rec == [] then req else rec) else req + rec
  {
    WellFormedParts(req, rec);
    hide ReadKeys, CopyText, Placeholders, Listable;
    if example.Some? {
      var last := if rec == [] then req else rec;
      CopyReadBack(example.value);
      ReadKeysAppend(CopyText(example.value), Placeholders(last));
      PlaceholdersRead(last);
    } else {
      PlaceholdersRead(req + rec);
      assert "" + Placeholders(req + rec) == Placeholders(req + rec);
    }
  }

  lemma ConvergesWithoutEnv(cfg: EnvConfig, example: Option<string>)
    requires AllWellFormed(cfg.required + cfg.recommended) && cfg.required + cfg.recommended != []
    ensures Clean(cfg, FixedText(cfg.required, cfg.recommended, example, None)) <==> Converges(cfg, example, None)
  {
    hide Readable, Listable, ReadKeys, CopyText, Placeholders, FixedText, Clean, EnvItems, WellFormed;
    AllMissing(cfg.required);
    AllMissing(cfg.recommended);
    WellFormedParts(cfg.required, cfg.recommended);
    KeysOfFixedText(cfg.required, cfg.recommended, example);
    CleanIsSubset(cfg, None, FixedText(cfg.required, cfg.recommended, example, None).value);
  }

  lemma WellFormedParts(a: seq<string>, b: seq<string>)
    ensures AllWellFormed(a + b) <==> AllWellFormed(a) && AllWellFormed(b)
  {
    hide WellFormed;
    assert forall i | 0 <= i < |a| :: a[i] == (a + b)[i];
    assert forall i | 0 <= i < |b| :: b[i] == (a + b)[|a| + i];
  }

  // ------------------------------------------------ consequences for callers

  /** A clean check plans nothing for the env file, so a further round leaves it alone. */
  lemma CleanIsStable(cfg: EnvConfig, pre: seq<Item>, post: seq<Item>, example: Option<string>, env: Option<string>)
    requires Clean(cfg, env) && NoEnvItems(pre) && NoEnvItems(post)
    ensures EnvActions(PlannedActions(cfg, pre, post, example, env)) == []
    ensures FixRound(cfg, pre, post, example, env) == env
  {
    RoundIsEnvActions(cfg, pre, post, example, env);
    assert SafeEnvActions([], FilesOf(example, env)) == [];
  }

  lemma PlaceholdersEnd(t: string, keys: seq<string>)
    requires keys != []
    ensures Terminated(t + Placeholders(keys))
    decreases |keys|
  {
    var front, last := keys[..|keys| - 1], keys[|keys| - 1];
    assert keys == front + [last];
    PlaceholdersConcat(front, [last]);
    FirstPlaceholder([last]);
    var s := t + Placeholders(keys);
    assert Placeholders([last][1..]) == "";
    assert s[|s| - 1] == '\n';
  }

  lemma RoundTerminates(cfg: EnvConfig, pre: seq<Item>, post: seq<Item>, example: Option<string>, env: Option<string>)
    requires AllWellFormed(AllMissingKeys(cfg, env)) && NoEnvItems(pre) && NoEnvItems(post) && !Clean(cfg, env)
    ensures var after := FixRound(cfg, pre, post, example, env); after.Some? && Terminated(after.value)
  {
    hide FixRound, CopyText, Placeholders, Terminated, Readable, Listable;
    var req, rec := Missing(cfg.required, env), Missing(cfg.recommended, env);
    ListableText(cfg, pre, post, example, env);
    assert req + rec != [];
    if env.None? && example.Some? {
      PlaceholdersEnd(CopyText(example.value), if rec == [] then req else rec);
    } else {
      PlaceholdersEnd(TextOf(env), req + rec);
    }
  }

  /**
   Whatever one round loses, two rounds always suffice, as long as the missing keys are
   well-formed: the first leaves a file that ends its lines and keeps what was declared.
   */
  lemma TwoRoundsAlwaysConverge(cfg: EnvConfig, pre: seq<Item>, post: seq<Item>, pre2: seq<Item>, post2: seq<Item>,
      example: Option<string>, env: Option<string>)
    requires AllWellFormed(AllMissingKeys(cfg, env))
    requires NoEnvItems(pre) && NoEnvItems(post) && NoEnvItems(pre2) && NoEnvItems(post2)
    ensures Clean(cfg, FixRound(cfg, pre2, post2, example, FixRound(cfg, pre, post, example, env)))
  {
    hide FixRound, WellFormed, Terminated, Missing;
    var mid := FixRound(cfg, pre, post, example, env);
    if Clean(cfg, env) {
      CleanIsStable(cfg, pre, post, example, env);
      CleanIsStable(cfg, pre2, post2, example, env);
    } else {
      RoundTerminates(cfg, pre, post, example, env);
      StillWellFormed(cfg, pre, post, example, env);
      NothingIsFresh(mid.value);
      FixConvergesExactly(cfg, pre2, post2, example, mid);
    }
  }

  lemma NothingIsFresh(e: string)
    ensures Terminated(e) ==> FreshLine(OpenLine(e))
  {
    TrimOfTrimmed("");
  }

  lemma StillWellFormed(cfg: EnvConfig, pre: seq<Item>, post: seq<Item>, example: Option<string>, env: Option<string>)
    requires AllWellFormed(AllMissingKeys(cfg, env))
    ensures AllWellFormed(AllMissingKeys(cfg, FixRound(cfg, pre, post, example, env)))
  {
    hide FixRound, WellFormed, ReadKeys;
    var mid := FixRound(cfg, pre, post, example, env);
    if env.Some? { FixKeepsExistingKeys(cfg, pre, post, example, env.value); }
    var before, after := AllMissingKeys(cfg, env), AllMissingKeys(cfg, mid);
    forall i | 0 <= i < |after|
      ensures WellFormed(after[i])
    {
      assert after[i] in Missing(cfg.required, mid) || after[i] in Missing(cfg.recommended, mid);
      assert after[i] in before;
    }
  }

  /** A round only adds to an existing env file: its text stays a prefix, its keys stay declared. */
  lemma FixKeepsExistingKeys(cfg: EnvConfig, pre: seq<Item>, post: seq<Item>, example: Option<string>, e: string)
    ensures var after := FixRound(cfg, pre, post, example, Some(e));
      after.Some? && e <= after.value && forall k | k in ReadKeys(e) :: k in ReadKeys(after.value)
  {
    hide ReadKeys, EnvItems, AllFixes;
    FixSafety.PlanOnlyGrows(pre + EnvItems(cfg, Some(e)) + post, example, e);
  }

  /** The failure this leaves: a required key outside the example is lost when a recommended one is wanted too. */
  lemma LostRequiredKey(example: string, req: string, rec: string)
    requires WellFormed(req) && WellFormed(rec) && req != rec && req !in ReadKeys(CopyText(example))
    ensures var cfg := EnvConfig([req], [rec]);
      !Clean(cfg, FixRound(cfg, [], [], Some(example), None))
  {
    hide FixRound, WellFormed, CopyText, ReadKeys;
    var cfg := EnvConfig([req], [rec]);
    AllMissing([req]);
    AllMissing([rec]);
    FixConvergesExactly(cfg, [], [], Some(example), None);
    OneOfEachLost(cfg, example, req, rec);
  }

  lemma OneOfEachLost(cfg: EnvConfig, example: string, req: string, rec: string)
    requires cfg == EnvConfig([req], [rec]) && req != rec && req !in ReadKeys(CopyText(example))
    requires Missing(cfg.required, None) == [req] && Missing(cfg.recommended, None) == [rec]
    ensures !Converges(cfg, Some(example), None)
  {
    assert req in cfg.required && req !in cfg.recommended;
  }
}
