/** Applying the safe actions of a plan to the project directory. */
module FixApply {
  import opened Prelude
  import opened Text
  import opened EnvText
  import opened Reports
  import opened FixPlans
  import EnvLines

  /**
   How a run is asked to behave, and what the world answers: the error of pulling an image, and
   of opening the env file for writing, if any.
   */
  datatype Options = Options(
    dryRun: bool, yes: bool, pullError: string -> Option<string>, openError: Option<string>)

  /** Whether a run changes files at all. */
  predicate Writes(opts: Options) { !opts.dryRun && opts.openError == None }

  datatype ApplyResult = ApplyResult(applied: seq<string>, skipped: seq<string>, errors: seq<string>)

  const NOTHING := ApplyResult([], [], [])

  function Merge(a: ApplyResult, b: ApplyResult): ApplyResult {
    ApplyResult(a.applied + b.applied, a.skipped + b.skipped, a.errors + b.errors)
  }

  // ---------------------------------------------------- what one action does

  function PlaceholderLines(keys: seq<string>): (r: seq<string>)
    ensures |r| == |keys| && forall i | 0 <= i < |keys| :: r[i] == keys[i] + "="
  {
    seq(|keys|, i requires 0 <= i < |keys| => keys[i] + "=")
  }

  /** The text appended for missing keys: each with a blank value, on a line of its own. */
  function Placeholders(keys: seq<string>): string { Unlines(PlaceholderLines(keys)) }

  /** The env file after one action that is not a dry run. */
  function EnvAfter(a: Action, example: Option<string>, env: Option<string>): Option<string> {
    if a.id == CREATE_ENV then
      match example
      case None => env
      case Some(x) => Some(CopyText(x))
    else if a.id == APPEND_KEYS then
      Some((match env { case None => "" case Some(e) => e }) + Placeholders(a.appliesTo))
    else env
  }

  function EnvAfterAll(actions: seq<Action>, example: Option<string>, env: Option<string>): Option<string> {
    if actions == [] then env
    else EnvAfter(actions[|actions| - 1], example, EnvAfterAll(actions[..|actions| - 1], example, env))
  }

  function PullOutcome(a: Action, commands: seq<string>, opts: Options): ApplyResult {
    if commands == [] then NOTHING
    else if "docker pull " <= commands[0] then
      match opts.pullError(commands[0][|"docker pull "|..])
      case Some(e) => ApplyResult([], [], [e])
      case None => Merge(ApplyResult([a.id], [], []), PullOutcome(a, commands[1..], opts))
    else PullOutcome(a, commands[1..], opts)
  }

  function Outcome(a: Action, opts: Options, example: Option<string>): ApplyResult {
    if a.id == CREATE_ENV then
      if opts.dryRun then ApplyResult([CREATE_ENV + " (dry-run)"], [], [])
      else if example == None then ApplyResult([], [], ["read .env.example: file does not exist"])
      else if opts.openError.Some? then ApplyResult([], [], ["write .env: " + opts.openError.value])
      else ApplyResult([CREATE_ENV], [], [])
    else if a.id == APPEND_KEYS then
      if opts.dryRun then ApplyResult([APPEND_KEYS + " (dry-run)"], [], [])
      else if opts.openError.Some? then ApplyResult([], [], ["open .env: " + opts.openError.value])
      else ApplyResult([APPEND_KEYS], [], [])
    else if DOCKER_PULL <= a.id then
      if opts.dryRun then ApplyResult([a.id + " (dry-run)"], [], [])
      else if !opts.yes then ApplyResult([], [a.id + " (needs --yes)"], [])
      else PullOutcome(a, a.commands, opts)
    else ApplyResult([], [a.title], [])
  }

  function OutcomeAll(actions: seq<Action>, opts: Options, example: Option<string>): ApplyResult {
    if actions == [] then NOTHING
    else Merge(OutcomeAll(actions[..|actions| - 1], opts, example), Outcome(actions[|actions| - 1], opts, example))
  }

  // ------------------------------------------------------ the project directory

  class Workspace {
    var env: Option<string>
    var example: Option<string>
    var configExists: bool

    constructor (envText: Option<string>, exampleText: Option<string>, hasConfig: bool)
      ensures env == envText && example == exampleText && configExists == hasConfig
    {
      env, example, configExists := envText, exampleText, hasConfig;
    }

    method CreateEnvFromExample(opts: Options) returns (r: ApplyResult)
      modifies this`env
      ensures r == Outcome(CreateAction(), opts, example)
      ensures env == if Writes(opts) then EnvAfter(CreateAction(), example, old(env)) else old(env)
    {
      if opts.dryRun {
        return ApplyResult([CREATE_ENV + " (dry-run)"], [], []);
      }
      if example == None {
        return ApplyResult([], [], ["read .env.example: file does not exist"]);
      }
      var content := EnvFromExample(example.value);
      if opts.openError.Some? {
        return ApplyResult([], [], ["write .env: " + opts.openError.value]);
      }
      env := Some(content);
      return ApplyResult([CREATE_ENV], [], []);
    }

    /** Opens for appending, creating the file if need be, and writes one line per key. */
    method AppendMissingKeys(keys: seq<string>, opts: Options) returns (r: ApplyResult)
      modifies this`env
      ensures r == Outcome(AppendAction(keys), opts, example)
      ensures env == if Writes(opts) then EnvAfter(AppendAction(keys), example, old(env)) else old(env)
    {
      hide DropCR, Lines;
      if opts.dryRun {
        return ApplyResult([APPEND_KEYS + " (dry-run)"], [], []);
      }
      if opts.openError.Some? {
        return ApplyResult([], [], ["open .env: " + opts.openError.value]);
      }
      var text := match env { case None => "" case Some(e) => e };
      ghost var before := text;
      for i := 0 to |keys|
        invariant text == before + Placeholders(keys[..i])
      {
        assert PlaceholderLines(keys[..i + 1]) == PlaceholderLines(keys[..i]) + [keys[i] + "="];
        UnlinesSnoc(PlaceholderLines(keys[..i]), keys[i] + "=");
        text := text + (keys[i] + "=" + "\n");
      }
      assert keys[..|keys|] == keys;
      env := Some(text);
      return ApplyResult([APPEND_KEYS], [], []);
    }

    method DockerPull(a: Action, opts: Options) returns (r: ApplyResult)
      requires DOCKER_PULL <= a.id && !IsEnvAction(a)
      ensures r == Outcome(a, opts, example)
    {
      if opts.dryRun {
        return ApplyResult([a.id + " (dry-run)"], [], []);
      }
      if !opts.yes {
        return ApplyResult([], [a.id + " (needs --yes)"], []);
      }
      r := NOTHING;
      var cs := a.commands;
      for i := 0 to |cs|
        invariant PullOutcome(a, cs, opts) == Merge(r, PullOutcome(a, cs[i..], opts))
        invariant r.skipped == [] && r.errors == []
      {
        assert cs[i..][1..] == cs[i + 1..];
        if "docker pull " <= cs[i] {
          var failed := opts.pullError(cs[i][|"docker pull "|..]);
          if failed.Some? {
            return ApplyResult(r.applied, [], [failed.value]);
          }
          r := ApplyResult(r.applied + [a.id], [], []);
        }
      }
    }

    /** The loop over the safe actions, and the closing note about a missing config file. */
    method ApplySafe(safe: seq<Action>, opts: Options) returns (r: ApplyResult)
      modifies this`env
      ensures env == if Writes(opts) then EnvAfterAll(safe, example, old(env)) else old(env)
      ensures r == Merge(OutcomeAll(safe, opts, example),
                         if !configExists && opts.dryRun then ApplyResult(["init-config (dry-run)"], [], [])
                         else NOTHING)
    {
      r := NOTHING;
      for i := 0 to |safe|
        invariant env == if Writes(opts) then EnvAfterAll(safe[..i], example, old(env)) else old(env)
        invariant r == OutcomeAll(safe[..i], opts, example)
      {
        assert safe[..i + 1][..i] == safe[..i];
        var one := ApplyOne(safe[i], opts);
        r := Merge(r, one);
      }
      assert safe[..|safe|] == safe;
      if !configExists && opts.dryRun {
        r := Merge(r, ApplyResult(["init-config (dry-run)"], [], []));
      }
    }

    /** The dispatch on an action's ID. */
    method ApplyOne(a: Action, opts: Options) returns (r: ApplyResult)
      modifies this`env
      ensures env == if Writes(opts) then EnvAfter(a, example, old(env)) else old(env)
      ensures r == Outcome(a, opts, example)
    {
      if a.id == CREATE_ENV {
        r := CreateEnvFromExample(opts);
      } else if a.id == APPEND_KEYS {
        r := AppendMissingKeys(a.appliesTo, opts);
      } else if DOCKER_PULL <= a.id {
        r := DockerPull(a, opts);
      } else {
        r := ApplyResult([], [a.title], []);
      }
    }
  }

  // ------------------------------------------------------- honest outcomes

  /** An env action took effect: the run says so by its ID, without a word added. */
  ghost predicate Reported(a: Action, r: ApplyResult) { a.id in r.applied }

  lemma DryNames(id: string)
    ensures id + " (dry-run)" != id
  {
    assert |id + " (dry-run)"| > |id|;
  }

  /**
   One env action reports itself applied exactly when it wrote the file; otherwise it was a dry
   run, or reports exactly one error.
   */
  lemma EnvOutcomeIsHonest(a: Action, opts: Options, example: Option<string>)
    requires IsEnvAction(a)
    ensures Reported(a, Outcome(a, opts, example)) <==>
              Writes(opts) && (a.id == CREATE_ENV ==> example.Some?)
    ensures |Outcome(a, opts, example).errors| ==
            if opts.dryRun || Reported(a, Outcome(a, opts, example)) then 0 else 1
  {
    DryNames(a.id);
  }

  /** Every message of a run comes from one of its actions, and none of theirs is lost. */
  lemma {:induction false} OutcomesAreKept(actions: seq<Action>, opts: Options, example: Option<string>, text: string)
    ensures text in OutcomeAll(actions, opts, example).applied <==>
              exists i | 0 <= i < |actions| :: text in Outcome(actions[i], opts, example).applied
    ensures text in OutcomeAll(actions, opts, example).skipped <==>
              exists i | 0 <= i < |actions| :: text in Outcome(actions[i], opts, example).skipped
    ensures text in OutcomeAll(actions, opts, example).errors <==>
              exists i | 0 <= i < |actions| :: text in Outcome(actions[i], opts, example).errors
  {
    hide Outcome;
    if actions != [] {
      var front, last := actions[..|actions| - 1], actions[|actions| - 1];
      OutcomesAreKept(front, opts, example, text);
      assert forall i | 0 <= i < |front| :: front[i] == actions[i];
    }
  }

  /** And in the order of the plan: a plan run part by part reports part by part. */
  lemma {:induction false} OutcomesInOrder(a: seq<Action>, b: seq<Action>, opts: Options, example: Option<string>)
    ensures var x, y, z := OutcomeAll(a, opts, example), OutcomeAll(b, opts, example), OutcomeAll(a + b, opts, example);
      z.applied == x.applied + y.applied && z.skipped == x.skipped + y.skipped && z.errors == x.errors + y.errors
  {
    hide Outcome;
    if b == [] {
      assert a + b == a;
    } else {
      assert (a + b)[..|a + b| - 1] == a + b[..|b| - 1];
      OutcomesInOrder(a, b[..|b| - 1], opts, example);
    }
  }

  /** What a run says of the two env actions: each message in full, by what the world answers. */
  lemma EnvActionSays(a: Action, opts: Options, example: Option<string>)
    requires IsEnvAction(a)
    ensures var create := a.id == "create-env-from-example";
      Outcome(a, opts, example) ==
        if opts.dryRun then ApplyResult([a.id + " (dry-run)"], [], [])
        else if create && example == None then ApplyResult([], [], ["read .env.example: file does not exist"])
        else match opts.openError
          case Some(e) => ApplyResult([], [], [(if create then "write .env: " else "open .env: ") + e])
          case None => ApplyResult([a.id], [], [])
  {
    EnvIdsApart();
  }

  lemma EnvIdsApart()
    ensures CREATE_ENV == "create-env-from-example" && APPEND_KEYS == "append-missing-env-keys"
    ensures CREATE_ENV != APPEND_KEYS
  {
    assert CREATE_ENV[0] == 'c' && APPEND_KEYS[0] == 'a';
  }

  /** A planned pull in a dry run or without consent, and an action no run knows how to apply. */
  lemma HeldActionSays(image: string, a: Action, opts: Options, example: Option<string>)
    ensures opts.dryRun ==> Outcome(PullAction(image), opts, example) ==
                            ApplyResult(["docker-pull-" + Lower(image) + " (dry-run)"], [], [])
    ensures !opts.dryRun && !opts.yes ==> Outcome(PullAction(image), opts, example) ==
                                          ApplyResult([], ["docker-pull-" + Lower(image) + " (needs --yes)"], [])
    ensures !IsEnvAction(a) && !("docker-pull-" <= a.id) ==>
              Outcome(a, opts, example) == ApplyResult([], [a.title], [])
  {
    PullIdOpens(image);
    PullIsNoEnvAction(image);
    hide Lower, PullOutcome;
  }

  /** With consent a planned pull reports the image's error, or that it was applied. */
  lemma PullIsReported(image: string, opts: Options, example: Option<string>)
    requires !opts.dryRun && opts.yes
    ensures Outcome(PullAction(image), opts, example) ==
            match opts.pullError(image)
            case Some(e) => ApplyResult([], [], [e])
            case None => ApplyResult([PullAction(image).id], [], [])
  {
    var a := PullAction(image);
    PullIdOpens(image);
    PullIsNoEnvAction(image);
    var c := "docker pull " + image;
    assert c[..|"docker pull "|] == "docker pull " && c[|"docker pull "|..] == image;
    assert a.commands == [c] && a.commands[1..] == [];
    hide Lower;
    PullOne(a, c, image, opts);
  }

  lemma PullOne(a: Action, c: string, image: string, opts: Options)
    requires a.commands == [c] && "docker pull " <= c && c[|"docker pull "|..] == image
    ensures PullOutcome(a, a.commands, opts) ==
            match opts.pullError(image)
            case Some(e) => ApplyResult([], [], [e])
            case None => ApplyResult([a.id], [], [])
  {
    assert a.commands[1..] == [];
    assert PullOutcome(a, [], opts) == NOTHING;
    assert [a.id] + [] == [a.id];
  }

  /** What is appended reads back as one blank assignment per key, in order. */
  lemma AppendedAreBlank(keys: seq<string>)
    requires forall i | 0 <= i < |keys| :: EnvLines.GoodKey(keys[i])
    ensures ParseAll(Lines(Placeholders(keys))) == seq(|keys|, i requires 0 <= i < |keys| => Pair(keys[i], ""))
  {
    var ls := PlaceholderLines(keys);
    forall i | 0 <= i < |keys|
      ensures OneLine(ls[i]) && DropCR(ls[i]) == ls[i] && ParseLine(ls[i]) == Pair(keys[i], "")
    {
      BlankAssignment(keys[i]);
    }
    LinesOfUnlines(ls);
    assert Lines(Placeholders(keys)) == ls;
    hide ParseLine, Lines, Placeholders, PlaceholderLines, EnvLines.GoodKey;
  }

  lemma BlankAssignment(key: string)
    requires EnvLines.GoodKey(key)
    ensures OneLine(key + "=") && DropCR(key + "=") == key + "=" && ParseLine(key + "=") == Pair(key, "")
  {
    BlankIsOneLine(key);
    BlankIsPair(key);
  }

  lemma BlankIsOneLine(key: string)
    requires EnvLines.GoodKey(key)
    ensures OneLine(key + "=") && DropCR(key + "=") == key + "="
  {
    hide ParseLine, Trim, Lower;
  }

  lemma BlankIsPair(key: string)
    requires EnvLines.GoodKey(key)
    ensures ParseLine(key + "=") == Pair(key, "")
  {
    hide *;
    EnvLines.PairLine("", false, key, "", "") by { NoSpaceInNone(); }
    NoSpaceInNone();
    NothingAround(key);
  }

  lemma NoSpaceInNone()
    ensures AllSpace("") && Trim("") == ""
  {
    TrimOfTrimmed("");
  }

  lemma NothingAround(key: string)
    ensures "" + "" + key + "=" + "" + "" == key + "="
  {
  }

  /**
   Consent: of a plan's safe actions a run without --yes holds back exactly those flagged as
   needing confirmation, and pulls nothing.
   */
  lemma ConsentIsRespected(items: seq<Item>, files: Files, a: Action, opts: Options, example: Option<string>)
    requires a in InLane(AllFixes(items, files), Safe) && !opts.dryRun && !opts.yes
    ensures a.confirm <==> Outcome(a, opts, example) == ApplyResult([], [a.id + " (needs --yes)"], [])
    ensures a.confirm <==> Outcome(a, opts, example).skipped != []
  {
    hide AllFixes, InLane, Harmless, FlagsRight, Outcome;
    PlanFlags(items, files);
    LaneIsFromPlan(AllFixes(items, files), Safe);
    SafeLaneIsHarmless(items, files);
    var i :| 0 <= i < |AllFixes(items, files)| && AllFixes(items, files)[i] == Planned(Safe, a);
    assert FlagsRight(Planned(Safe, a));
    SafeIsEnvOrPull(a);
    HeldBack(a, opts, example);
  }

  lemma HeldBack(a: Action, opts: Options, example: Option<string>)
    requires FlagsRight(Planned(Safe, a)) && (IsEnvAction(a) || DOCKER_PULL <= a.id) && !opts.dryRun && !opts.yes
    ensures a.confirm <==> Outcome(a, opts, example) == ApplyResult([], [a.id + " (needs --yes)"], [])
    ensures a.confirm <==> Outcome(a, opts, example).skipped != []
  {
    EnvIdsAreNoPulls();
    hide PullOutcome;
  }

  lemma SafeIsEnvOrPull(a: Action)
    requires Harmless(a)
    ensures IsEnvAction(a) || DOCKER_PULL <= a.id
  {
    hide Lower;
    if image :| a == PullAction(image) { PullIdOpens(image); }
  }

  // -------------------------------------------------- only env actions matter

  lemma {:induction false} EnvAfterAllSnoc(actions: seq<Action>, a: Action, example: Option<string>,
      env: Option<string>)
    ensures EnvAfterAll(actions + [a], example, env) == EnvAfter(a, example, EnvAfterAll(actions, example, env))
  {
    assert (actions + [a])[..|actions|] == actions;
  }

  /** Actions on other things can be dropped without changing what happens to the env file. */
  lemma {:induction false} EnvActionsSuffice(actions: seq<Action>, example: Option<string>, env: Option<string>)
    ensures EnvAfterAll(EnvActions(actions), example, env) == EnvAfterAll(actions, example, env)
  {
    if actions != [] {
      var front, last := actions[..|actions| - 1], actions[|actions| - 1];
      EnvActionsSuffice(front, example, env);
      if IsEnvAction(last) {
        EnvAfterAllSnoc(EnvActions(front), last, example, env);
      } else {
        assert EnvActions(actions) == EnvActions(front);
      }
    }
  }
}
