/** From report items to a plan of safe, guided and unfixable actions. */
module FixPlans {
  import opened Text
  import opened Reports
  import opened Checks

  /** What a description says; Wording spells it out. */
  datatype Description =
    | CopiesExample
    | AppendsKeys(keys: seq<string>)
    | PullsImage
    | InstallHint(rt: string)
    | SwitchHint(rt: string, found: string, expected: string)
    | StartHint(name: string)
    | ComposeMissing(name: string)
    | Drifted(it: Item)

  function Wording(d: Description): string {
    match d
    case CopiesExample =>
      "Copies .env.example to .env, preserving non-secret defaults. Secret fields are left blank."
    case AppendsKeys(keys) =>
      "Appends " + Join(keys, ", ")
      + " to .env with blank values so the file is valid. You still need to set real values."
    case PullsImage => "Pulls the image locally so it is available."
    case InstallHint(rt) => rt + " is missing. Suggested install commands:"
    case SwitchHint(rt, found, expected) =>
      "Suggested commands to switch " + rt + " from " + found + " to " + expected + ":"
    case StartHint(name) => "Start the service so " + name + " is reachable."
    case ComposeMissing(name) =>
      "Compose file " + Quoted(name) + " is missing. Create it or commit it to the repo."
    case Drifted(it) => it.category + ": " + it.name + " (found " + it.found + ", expected " + it.expected + ")"
  }

  /** The name in quotes. */
  function Quoted(name: string): string { "\"" + name + "\"" }

  /** A fix as the program records it. */
  datatype Action = Action(
    id: string, title: string, description: Description, commands: seq<string>,
    safe: bool, confirm: bool, appliesTo: seq<string>)

  const CREATE_ENV := "create-env-from-example"
  const APPEND_KEYS := "append-missing-env-keys"
  const DOCKER_PULL := "docker-pull-"

  function CreateAction(): Action {
    Action(CREATE_ENV, "Create .env from .env.example", CopiesExample, [], true, false, [".env"])
  }

  function AppendAction(missing: seq<string>): Action {
    Action(APPEND_KEYS, "Append missing keys to .env as blank placeholders", AppendsKeys(missing),
           [], true, false, missing)
  }

  function PullAction(image: string): Action {
    Action(DOCKER_PULL + Lower(image), "Pull required Docker image: " + image,
           PullsImage, ["docker pull " + image], true, true, [image])
  }

  // ------------------------------------- reading the blocker sentence back

  const COLON_SPACE := ": "

  function NonBlank(parts: seq<string>): seq<string> {
    if parts == [] then []
    else (if Trim(parts[0]) == "" then [] else [Trim(parts[0])]) + NonBlank(parts[1..])
  }

  function ExtractMissingKeys(blocker: string): seq<string> {
    var i := LastIndex(blocker, COLON_SPACE);
    if i < 0 then [] else NonBlank(Split(Trim(blocker[i + 2..]), ','))
  }

  lemma {:induction false} NonBlankSnoc(parts: seq<string>, p: string)
    ensures NonBlank(parts + [p]) == NonBlank(parts) + if Trim(p) == "" then [] else [Trim(p)]
  {
    hide Trim;
    if parts == [] {
      assert [] + [p] == [p] && [p][1..] == [];
    } else {
      NonBlankSnoc(parts[1..], p);
      assert (parts + [p])[1..] == parts[1..] + [p];
    }
  }

  method ExtractKeys(blocker: string) returns (keys: seq<string>)
    ensures keys == ExtractMissingKeys(blocker)
  {
    keys := [];
    var i := LastIndex(blocker, COLON_SPACE);
    if i < 0 {
      return;
    }
    keys := CollectNonBlank(Split(Trim(blocker[i + 2..]), ','));
  }

  method CollectNonBlank(parts: seq<string>) returns (keys: seq<string>)
    ensures keys == NonBlank(parts)
  {
    hide Trim;
    keys := [];
    for j := 0 to |parts|
      invariant keys == NonBlank(parts[..j])
    {
      assert parts[..j + 1] == parts[..j] + [parts[j]];
      NonBlankSnoc(parts[..j], parts[j]);
      var k := Trim(parts[j]);
      if k != "" {
        keys := keys + [k];
      }
    }
    assert parts[..|parts|] == parts;
  }

  ghost predicate NoComma(s: string) { forall i | 0 <= i < |s| :: s[i] != ',' }

  ghost predicate NoColonSpace(s: string) { forall i | 0 <= i < |s| - 1 :: !(s[i] == ':' && s[i + 1] == ' ') }

  /** A key that can stand in the sentence and be found again. */
  ghost predicate Listable(k: string) { k != "" && Trimmed(k) && NoComma(k) && NoColonSpace(k) }

  lemma OccursColonSpace(s: string, j: int)
    ensures Occurs(s, COLON_SPACE, j) <==> 0 <= j && j + 2 <= |s| && s[j] == ':' && s[j + 1] == ' '
  {
    if 0 <= j && j + 2 <= |s| {
      assert s[j..j + 2] == [s[j], s[j + 1]];
    }
  }

  lemma LastColonSpace(start: string, rest: string)
    requires |start| >= 2 && start[|start| - 2] == ':' && start[|start| - 1] == ' ' && NoColonSpace(rest)
    ensures LastIndex(start + rest, COLON_SPACE) == |start| - 2
  {
    var s := start + rest;
    var n := |start| - 2;
    OccursColonSpace(s, n);
    forall j | n < j && j + 2 <= |s|
      ensures !Occurs(s, COLON_SPACE, j)
    {
      OccursColonSpace(s, j);
      if j >= |start| {
        assert s[j] == rest[j - |start|] && s[j + 1] == rest[j + 1 - |start|];
      }
    }
  }

  lemma {:induction false} JoinHasNoColonSpace(keys: seq<string>)
    requires forall i | 0 <= i < |keys| :: Listable(keys[i])
    ensures NoColonSpace(Join(keys, ", ")) && Trimmed(Join(keys, ", "))
    ensures keys != [] ==> Join(keys, ", ") != ""
  {
    if |keys| > 1 {
      JoinHasNoColonSpace(keys[1..]);
      JoinedClean(keys[0], Join(keys[1..], ", "));
    }
  }

  lemma JoinedClean(k: string, rest: string)
    requires Listable(k) && NoColonSpace(rest) && Trimmed(rest) && rest != ""
    ensures NoColonSpace(k + ", " + rest) && Trimmed(k + ", " + rest)
  {
    var s := k + ", " + rest;
    assert s[|k|] == ',' && s[|k| + 1] == ' ';
    assert forall i | 0 <= i < |k| :: s[i] == k[i];
    assert forall i | 0 <= i < |rest| :: s[|k| + 2 + i] == rest[i];
    forall i | 0 <= i < |s| - 1
      ensures !(s[i] == ':' && s[i + 1] == ' ')
    {
      if i >= |k| + 2 { assert s[i] == rest[i - |k| - 2] && s[i + 1] == rest[i + 1 - |k| - 2]; }
    }
    assert s[|s| - 1] == rest[|rest| - 1];
  }

  lemma PartStep(pad: string, k: string, rest: string)
    requires AllSpace(pad) && NoComma(pad) && Listable(k)
    ensures NonBlank(Split(pad + k + "," + rest, ',')) == [k] + NonBlank(Split(rest, ','))
  {
    var p := pad + k;
    assert forall i | 0 <= i < |p| :: p[i] == if i < |pad| then pad[i] else k[i - |pad|];
    SplitStep(p, ',', rest);
    TrimUnique(pad, k, "");
    assert p + "" == p;
  }

  lemma LastPart(pad: string, k: string)
    requires AllSpace(pad) && NoComma(pad) && Listable(k)
    ensures NonBlank(Split(pad + k, ',')) == [k]
  {
    var p := pad + k;
    assert forall i | 0 <= i < |p| :: p[i] == if i < |pad| then pad[i] else k[i - |pad|];
    assert ',' !in p;
    TrimUnique(pad, k, "");
    assert p + "" == p;
  }

  lemma {:induction false} PartsOfJoin(pad: string, keys: seq<string>)
    requires AllSpace(pad) && NoComma(pad)
    requires keys != [] && forall i | 0 <= i < |keys| :: Listable(keys[i])
    ensures NonBlank(Split(pad + Join(keys, ", "), ',')) == keys
    decreases |keys|
  {
    hide Listable, NonBlank, Split, AllSpace, NoComma;
    if |keys| == 1 {
      LastPart(pad, keys[0]);
      assert keys == [keys[0]];
    } else {
      var k, tail := keys[0], Join(keys[1..], ", ");
      JoinedParts(pad, k, tail);
      SpaceIsPad();
      PartStep(pad, k, " " + tail);
      PartsOfJoin(" ", keys[1..]);
      assert keys == [k] + keys[1..];
    }
  }

  lemma JoinedParts(pad: string, k: string, tail: string)
    ensures pad + (k + ", " + tail) == pad + k + "," + (" " + tail)
  {
  }

  lemma SpaceIsPad()
    ensures AllSpace(" ") && NoComma(" ")
  {
  }

  lemma SliceKeepsNoColonSpace(s: string, i: nat, j: nat)
    requires NoColonSpace(s) && i <= j <= |s|
    ensures NoColonSpace(s[i..j])
  {
    assert forall k | 0 <= k < j - i :: s[i..j][k] == s[i + k];
  }

  lemma {:induction false} SplitPartsClean(s: string)
    requires NoColonSpace(s)
    ensures forall i | 0 <= i < |Split(s, ',')| :: NoColonSpace(Split(s, ',')[i]) && NoComma(Split(s, ',')[i])
  {
    var i := IndexByte(s, ',');
    if i < 0 {
      assert forall k | 0 <= k < |s| :: s[k] in s;
    } else {
      SliceKeepsNoColonSpace(s, 0, i);
      SliceKeepsNoColonSpace(s, i + 1, |s|);
      assert NoComma(s[..i]);
      hide NoColonSpace, NoComma;
      SplitPartsClean(s[i + 1..]);
    }
  }

  lemma TrimClean(s: string)
    ensures NoColonSpace(s) ==> NoColonSpace(Trim(s))
    ensures NoComma(s) ==> NoComma(Trim(s))
    ensures Trimmed(Trim(s))
  {
    var a, b := TrimParts(s);
    var t := Trim(s);
    assert forall i | 0 <= i < |t| :: s[|a| + i] == t[i];
  }

  lemma {:induction false} NonBlankListable(parts: seq<string>)
    requires forall i | 0 <= i < |parts| :: NoColonSpace(parts[i]) && NoComma(parts[i])
    ensures forall i | 0 <= i < |NonBlank(parts)| :: Listable(NonBlank(parts)[i])
  {
    if parts != [] {
      TrimClean(parts[0]);
      NonBlankListable(parts[1..]);
    }
  }

  lemma AfterLastClean(s: string, i: int)
    requires i == LastIndex(s, COLON_SPACE) && i >= 0
    ensures NoColonSpace(s[i + 2..])
  {
    var r := s[i + 2..];
    forall k | 0 <= k < |r| - 1
      ensures !(r[k] == ':' && r[k + 1] == ' ')
    {
      var j := i + 2 + k;
      assert r[k] == s[j] && r[k + 1] == s[j + 1];
      assert !Occurs(s, COLON_SPACE, j);
      OccursColonSpace(s, j);
    }
  }

  lemma ExtractedAreListable(blocker: string)
    ensures forall i | 0 <= i < |ExtractMissingKeys(blocker)| :: Listable(ExtractMissingKeys(blocker)[i])
  {
    var i := LastIndex(blocker, COLON_SPACE);
    if i >= 0 {
      var raw := blocker[i + 2..];
      AfterLastClean(blocker, i);
      TrimClean(raw);
      SplitPartsClean(Trim(raw));
      NonBlankListable(Split(Trim(raw), ','));
    }
  }

  lemma SentenceStartEnds(w: Want)
    ensures var s := SentenceStart(w); |s| >= 2 && s[|s| - 2] == ':' && s[|s| - 1] == ' '
  {
  }

  /** The planner reads back exactly the keys the env check printed, iff every key is listable. */
  lemma SentenceRoundTrip(w: Want, keys: seq<string>)
    ensures ExtractMissingKeys(Sentence(w, keys)) == keys <==> forall i | 0 <= i < |keys| :: Listable(keys[i])
  {
    ExtractedAreListable(Sentence(w, keys));
    if forall i | 0 <= i < |keys| :: Listable(keys[i]) {
      ListableReadBack(w, keys);
    }
  }

  lemma ListableReadBack(w: Want, keys: seq<string>)
    requires forall i | 0 <= i < |keys| :: Listable(keys[i])
    ensures ExtractMissingKeys(Sentence(w, keys)) == keys
  {
    var s, rest := SentenceStart(w), Join(keys, ", ");
    SentenceStartEnds(w);
    JoinHasNoColonSpace(keys);
    LastColonSpace(s, rest);
    assert Sentence(w, keys)[|s|..] == rest;
    TrimOfTrimmed(rest);
    if keys == [] {
      assert Split("", ',') == [""];
      assert Trim("") == "";
      assert NonBlank([""]) == NonBlank([""][1..]) == [];
    } else {
      PartsOfJoin("", keys);
      assert "" + rest == rest;
    }
  }

  // ------------------------------------------------------------ the plan

  datatype Lane = Safe | Guided | Unfixable

  datatype Planned = Planned(lane: Lane, action: Action)

  /** Which files exist when the plan is made. */
  datatype Files = Files(envExists: bool, exampleExists: bool)

  function EnvFixes(it: Item, files: Files): seq<Planned> {
    (if !files.envExists && files.exampleExists then [Planned(Safe, CreateAction())] else [])
    + (if ExtractMissingKeys(it.blocker) != []
        then [Planned(Safe, AppendAction(ExtractMissingKeys(it.blocker)))] else [])
  }

  function RuntimeFix(it: Item): Planned {
    var rt := Lower(it.name);
    Planned(Guided, if Contains(it.found, "missing") then InstallGuide(rt) else VersionGuide(rt, it.found, it.expected))
  }

  function InstallCommands(rt: string): seq<string> {
    if rt == "node" then ["nvm install 20", "nvm use 20"]
    else if rt == "java" then ["sdk install java 17.0.10-tem", "sdk use java 17.0.10-tem"]
    else if rt == "maven" then ["brew install maven", "sdk install maven"]
    else if rt == "python" then ["pyenv install 3.11", "pyenv local 3.11"]
    else if rt == "docker" then
      ["macOS: Install Docker Desktop from https://www.docker.com/products/docker-desktop/",
       "Linux: curl -fsSL https://get.docker.com | sh"]
    else ["# Install " + rt + " using your system package manager"]
  }

  function InstallGuide(name: string): Action {
    var rt := Trim(name);
    Action("install-" + rt, "Install " + rt, InstallHint(rt),
           InstallCommands(rt), false, false, [rt])
  }

  function VersionCommands(rt: string, expected: string): seq<string> {
    if rt == "node" then ["nvm install " + expected, "nvm use " + expected, "# If .nvmrc exists: nvm use"]
    else if rt == "java" then ["sdk install java " + expected, "sdk use java " + expected]
    else if rt == "python" then ["pyenv install " + expected, "pyenv local " + expected]
    else ["# Switch " + rt + " to version " + expected + " using your version manager"]
  }

  function VersionGuide(rt: string, found: string, expected: string): Action {
    Action("version-" + rt, rt + ": switch to " + expected + " (found " + found + ")",
           SwitchHint(rt, found, expected),
           VersionCommands(rt, expected), false, false, [rt])
  }

  function ServiceFix(it: Item): Planned {
    Planned(Guided, Action("service-" + Lower(it.name), it.name + " is not running",
                           StartHint(it.name), ["docker compose up -d " + Lower(it.name)], false, false, [it.name]))
  }

  function ComposeFix(it: Item): Planned {
    Planned(Unfixable, Action("compose-file-" + it.name, "Missing compose file: " + it.name,
                              ComposeMissing(it.name), [], false, false, [it.name]))
  }

  function DockerFix(it: Item): Planned {
    if Contains(it.name, "runtime") || Contains(it.found, "missing") then Planned(Guided, InstallGuide("docker"))
    else if Contains(it.name, ".yml") || Contains(it.name, ".yaml") then ComposeFix(it)
    else Planned(Safe, PullAction(it.name))
  }

  function NoFix(it: Item): Planned {
    Planned(Unfixable, Action("info-" + Lower(it.name), it.name + " drift", Drifted(it), [], false, false, [it.name]))
  }

  function ItemFixes(it: Item, files: Files): seq<Planned> {
    if it.severity != Critical && it.severity != Warning then []
    else if it.category == "Env" then EnvFixes(it, files)
    else if it.category == "Runtime" then [RuntimeFix(it)]
    else if it.category == "Service" || it.category == "Port" then [ServiceFix(it)]
    else if it.category == "Docker" then [DockerFix(it)]
    else [NoFix(it)]
  }

  function AllFixes(items: seq<Item>, files: Files): seq<Planned> {
    if items == [] then []
    else AllFixes(items[..|items| - 1], files) + ItemFixes(items[|items| - 1], files)
  }

  function InLane(planned: seq<Planned>, lane: Lane): seq<Action> {
    if planned == [] then []
    else InLane(planned[..|planned| - 1], lane)
         + if planned[|planned| - 1].lane == lane then [planned[|planned| - 1].action] else []
  }

  lemma {:induction false} InLaneConcat(a: seq<Planned>, b: seq<Planned>, lane: Lane)
    ensures InLane(a + b, lane) == InLane(a, lane) + InLane(b, lane)
  {
    if b == [] {
      assert a + b == a;
    } else {
      assert (a + b)[..|a + b| - 1] == a + b[..|b| - 1];
      InLaneConcat(a, b[..|b| - 1], lane);
    }
  }

  lemma {:induction false} AllFixesConcat(a: seq<Item>, b: seq<Item>, files: Files)
    ensures AllFixes(a + b, files) == AllFixes(a, files) + AllFixes(b, files)
  {
    hide ItemFixes;
    if b == [] {
      assert a + b == a;
    } else {
      assert (a + b)[..|a + b| - 1] == a + b[..|b| - 1];
      AllFixesConcat(a, b[..|b| - 1], files);
    }
  }

  /** The plan object the planner fills in through a pointer. */
  class FixPlan {
    var safe: seq<Action>
    var guided: seq<Action>
    var unfixable: seq<Action>

    ghost predicate Holds(planned: seq<Planned>)
      reads this
    {
      safe == InLane(planned, Safe) && guided == InLane(planned, Guided) && unfixable == InLane(planned, Unfixable)
    }

    constructor ()
      ensures Holds([])
    {
      safe, guided, unfixable := [], [], [];
    }

    method Append(p: Planned, ghost before: seq<Planned>)
      requires Holds(before)
      modifies this
      ensures Holds(before + [p])
    {
      assert (before + [p])[..|before|] == before;
      match p.lane {
        case Safe => safe := safe + [p.action];
        case Guided => guided := guided + [p.action];
        case Unfixable => unfixable := unfixable + [p.action];
      }
    }

    method AddEnvFixes(it: Item, files: Files, ghost before: seq<Planned>)
      requires Holds(before)
      modifies this
      ensures Holds(before + EnvFixes(it, files))
    {
      hide ExtractMissingKeys, AppendAction, CreateAction;
      ghost var now := before;
      if !files.envExists && files.exampleExists {
        Append(Planned(Safe, CreateAction()), before);
        now := before + [Planned(Safe, CreateAction())];
      }
      var missing := ExtractKeys(it.blocker);
      if missing != [] {
        Append(Planned(Safe, AppendAction(missing)), now);
        assert now + [Planned(Safe, AppendAction(missing))] == before + EnvFixes(it, files);
      } else {
        assert now == before + EnvFixes(it, files);
      }
    }

    method AddActions(it: Item, files: Files, ghost before: seq<Planned>)
      requires Holds(before) && (it.severity == Critical || it.severity == Warning)
      modifies this
      ensures Holds(before + ItemFixes(it, files))
    {
      if it.category == "Env" {
        AddEnvFixes(it, files, before);
      } else {
        var p :=
          if it.category == "Runtime" then RuntimeFix(it)
          else if it.category == "Service" || it.category == "Port" then ServiceFix(it)
          else if it.category == "Docker" then DockerFix(it)
          else NoFix(it);
        Append(p, before);
      }
    }
  }

  method Build(items: seq<Item>, files: Files) returns (plan: FixPlan)
    ensures fresh(plan) && plan.Holds(AllFixes(items, files))
  {
    plan := new FixPlan();
    for i := 0 to |items|
      invariant fresh(plan) && plan.Holds(AllFixes(items[..i], files))
    {
      assert items[..i + 1][..i] == items[..i];
      ghost var before := AllFixes(items[..i], files);
      if items[i].severity == Critical || items[i].severity == Warning {
        plan.AddActions(items[i], files, before);
      } else {
        assert before + ItemFixes(items[i], files) == before;
      }
    }
    assert items[..|items|] == items;
  }

  // ---------------------------------------------- which actions touch .env

  predicate IsEnvAction(a: Action) { a.id == CREATE_ENV || a.id == APPEND_KEYS }

  function EnvActions(actions: seq<Action>): seq<Action> {
    if actions == [] then []
    else EnvActions(actions[..|actions| - 1])
         + if IsEnvAction(actions[|actions| - 1]) then [actions[|actions| - 1]] else []
  }

  lemma {:induction false} EnvActionsConcat(a: seq<Action>, b: seq<Action>)
    ensures EnvActions(a + b) == EnvActions(a) + EnvActions(b)
  {
    if b == [] {
      assert a + b == a;
    } else {
      assert (a + b)[..|a + b| - 1] == a + b[..|b| - 1];
      EnvActionsConcat(a, b[..|b| - 1]);
    }
  }

  function SafeEnvActions(items: seq<Item>, files: Files): seq<Action> {
    EnvActions(InLane(AllFixes(items, files), Safe))
  }

  lemma SafeEnvActionsConcat(a: seq<Item>, b: seq<Item>, files: Files)
    ensures SafeEnvActions(a + b, files) == SafeEnvActions(a, files) + SafeEnvActions(b, files)
  {
    AllFixesConcat(a, b, files);
    InLaneConcat(AllFixes(a, files), AllFixes(b, files), Safe);
    EnvActionsConcat(InLane(AllFixes(a, files), Safe), InLane(AllFixes(b, files), Safe));
  }

  lemma PullIsNoEnvAction(image: string)
    ensures !IsEnvAction(PullAction(image))
  {
    assert PullAction(image).id[0] == 'd';
  }

  /** Only Env items ever plan an action on the env file. */
  lemma {:induction false} OtherItemsLeaveEnvAlone(items: seq<Item>, files: Files)
    requires forall it | it in items :: it.category != "Env"
    ensures SafeEnvActions(items, files) == []
  {
    if items != [] {
      var front, last := items[..|items| - 1], items[|items| - 1];
      assert last in items;
      OtherItemsLeaveEnvAlone(front, files);
      assert items == front + [last];
      SafeEnvActionsConcat(front, [last], files);
      OtherItemLeavesEnvAlone(last, files);
    }
  }

  lemma InLaneOne(p: Planned, lane: Lane)
    ensures InLane([p], lane) == if p.lane == lane then [p.action] else []
  {
    assert [p][..0] == [];
  }

  lemma EnvActionsOne(a: Action)
    ensures EnvActions([a]) == if IsEnvAction(a) then [a] else []
  {
    assert [a][..0] == [];
  }

  lemma SafeEnvActionsOne(it: Item, files: Files)
    ensures SafeEnvActions([it], files) == EnvActions(InLane(ItemFixes(it, files), Safe))
  {
    hide ItemFixes, EnvActions, InLane;
    assert [it][..0] == [];
    assert AllFixes([it], files) == ItemFixes(it, files);
  }

  lemma DockerFixSafe(it: Item)
    ensures DockerFix(it).lane == Safe ==> DockerFix(it).action == PullAction(it.name)
  {
    hide Contains, InstallGuide, PullAction;
  }

  lemma NeverSafe(it: Item)
    ensures RuntimeFix(it).lane == Guided && ServiceFix(it).lane == Guided && NoFix(it).lane == Unfixable
  {
    hide InstallGuide, VersionGuide, Contains, Lower;
  }

  /** At most one fix, and if it is safe it is the pull. */
  ghost predicate OnlyPull(fixes: seq<Planned>, image: string) {
    |fixes| <= 1 && forall i | 0 <= i < |fixes| && fixes[i].lane == Safe :: fixes[i].action == PullAction(image)
  }

  lemma OtherItemFix(it: Item, files: Files)
    requires it.category != "Env"
    ensures OnlyPull(ItemFixes(it, files), it.name)
  {
    hide RuntimeFix, ServiceFix, NoFix, DockerFix, PullAction;
    DockerFixSafe(it);
    NeverSafe(it);
  }

  lemma OnlyPullLeavesEnvAlone(fixes: seq<Planned>, image: string)
    requires OnlyPull(fixes, image)
    ensures EnvActions(InLane(fixes, Safe)) == []
  {
    hide PullAction, EnvActions, InLane, IsEnvAction;
    NoFixNoActions();
    if fixes != [] {
      assert fixes == [fixes[0]];
      PullIsNoEnvAction(image);
      InLaneOne(fixes[0], Safe);
      EnvActionsOne(fixes[0].action);
    }
  }

  lemma OtherItemLeavesEnvAlone(it: Item, files: Files)
    requires it.category != "Env"
    ensures SafeEnvActions([it], files) == []
  {
    hide *;
    SafeEnvActionsOne(it, files);
    OtherItemFix(it, files);
    OnlyPullLeavesEnvAlone(ItemFixes(it, files), it.name);
  }

  lemma NoFixNoActions()
    ensures InLane([], Safe) == [] && EnvActions([]) == []
  {
  }

  // ------------------------------------------------- what "safe" means

  /** Creating the env file, appending blank keys, or pulling an image: nothing else is ever safe. */
  ghost predicate Harmless(a: Action) {
    || a == CreateAction()
    || (exists keys :: a == AppendAction(keys) && forall i | 0 <= i < |keys| :: Listable(keys[i]))
    || exists image :: a == PullAction(image)
  }

  ghost predicate SafeOnesHarmless(planned: seq<Planned>) {
    forall i | 0 <= i < |planned| && planned[i].lane == Safe :: Harmless(planned[i].action)
  }

  lemma EnvFixesHarmless(it: Item, files: Files)
    ensures SafeOnesHarmless(EnvFixes(it, files))
  {
    ExtractedAreListable(it.blocker);
    hide AppendAction, CreateAction, ExtractMissingKeys, Listable;
  }

  lemma OnlyPullHarmless(fixes: seq<Planned>, image: string)
    requires OnlyPull(fixes, image)
    ensures SafeOnesHarmless(fixes)
  {
    hide PullAction, AppendAction, CreateAction, Listable;
  }

  lemma EnvItemFixes(it: Item, files: Files)
    requires it.category == "Env"
    ensures ItemFixes(it, files) == if it.severity == Info then [] else EnvFixes(it, files)
  {
    hide EnvFixes;
  }

  lemma ItemFixesHarmless(it: Item, files: Files)
    ensures SafeOnesHarmless(ItemFixes(it, files))
  {
    hide ItemFixes, EnvFixes, OnlyPull, Harmless;
    if it.category == "Env" {
      EnvItemFixes(it, files);
      EnvFixesHarmless(it, files);
    } else {
      OtherItemFix(it, files);
      OnlyPullHarmless(ItemFixes(it, files), it.name);
    }
  }

  lemma {:induction false} AllFixesHarmless(items: seq<Item>, files: Files)
    ensures SafeOnesHarmless(AllFixes(items, files))
  {
    hide Harmless, ItemFixes;
    if items != [] {
      AllFixesHarmless(items[..|items| - 1], files);
      ItemFixesHarmless(items[|items| - 1], files);
    }
  }

  lemma {:induction false} LaneIsFromPlan(planned: seq<Planned>, lane: Lane)
    ensures forall a | a in InLane(planned, lane) :: exists i | 0 <= i < |planned| :: planned[i] == Planned(lane, a)
  {
    if planned != [] {
      var n := |planned| - 1;
      LaneIsFromPlan(planned[..n], lane);
      forall a | a in InLane(planned, lane)
        ensures exists i | 0 <= i < |planned| :: planned[i] == Planned(lane, a)
      {
        if a in InLane(planned[..n], lane) {
          var i :| 0 <= i < n && planned[..n][i] == Planned(lane, a);
          assert planned[i] == Planned(lane, a);
        } else {
          assert planned[n] == Planned(lane, a);
        }
      }
    }
  }

  /** Whatever is found, the safe lane holds no install, no version switch and no service start. */
  lemma SafeLaneIsHarmless(items: seq<Item>, files: Files)
    ensures forall a | a in InLane(AllFixes(items, files), Safe) :: Harmless(a)
  {
    hide Harmless, AllFixes;
    AllFixesHarmless(items, files);
    LaneIsFromPlan(AllFixes(items, files), Safe);
  }

  /** The flags say what the lane says: only safe actions are flagged safe, only pulls ask for consent. */
  ghost predicate FlagsRight(p: Planned) {
    (p.action.safe <==> p.lane == Safe) && (p.action.confirm <==> p.lane == Safe && DOCKER_PULL <= p.action.id)
  }

  lemma EnvIdsAreNoPulls()
    ensures !(DOCKER_PULL <= CREATE_ENV) && !(DOCKER_PULL <= APPEND_KEYS)
  {
    assert DOCKER_PULL[0] == 'd' && CREATE_ENV[0] == 'c' && APPEND_KEYS[0] == 'a';
  }

  lemma PullIdOpens(image: string)
    ensures DOCKER_PULL <= PullAction(image).id
  {
  }

  lemma GuideFlags(name: string, found: string, expected: string)
    ensures FlagsRight(Planned(Guided, InstallGuide(name)))
    ensures FlagsRight(Planned(Guided, VersionGuide(name, found, expected)))
  {
    hide InstallCommands, VersionCommands, Trim;
  }

  lemma PlainFlags(it: Item)
    ensures FlagsRight(ServiceFix(it)) && FlagsRight(ComposeFix(it)) && FlagsRight(NoFix(it))
  {
    hide Lower;
  }

  lemma PullFlags(image: string)
    ensures FlagsRight(Planned(Safe, PullAction(image)))
  {
    PullIdOpens(image);
    hide Lower;
  }

  lemma EnvFlags(missing: seq<string>)
    ensures FlagsRight(Planned(Safe, CreateAction())) && FlagsRight(Planned(Safe, AppendAction(missing)))
  {
    EnvIdsAreNoPulls();
    hide CREATE_ENV, APPEND_KEYS, DOCKER_PULL;
  }

  lemma ItemFlags(it: Item, files: Files)
    ensures forall i | 0 <= i < |ItemFixes(it, files)| :: FlagsRight(ItemFixes(it, files)[i])
  {
    var rt := Lower(it.name);
    GuideFlags(rt, it.found, it.expected);
    GuideFlags("docker", it.found, it.expected);
    PlainFlags(it);
    PullFlags(it.name);
    EnvFlags(ExtractMissingKeys(it.blocker));
    hide FlagsRight, InstallGuide, VersionGuide, ServiceFix, ComposeFix, NoFix, PullAction, CreateAction, AppendAction,
      ExtractMissingKeys, Lower, Contains;
  }

  lemma {:induction false} PlanFlags(items: seq<Item>, files: Files)
    ensures forall i | 0 <= i < |AllFixes(items, files)| :: FlagsRight(AllFixes(items, files)[i])
  {
    hide ItemFixes, FlagsRight;
    if items != [] {
      PlanFlags(items[..|items| - 1], files);
      ItemFlags(items[|items| - 1], files);
    }
  }

  lemma CreateAndAppendAreEnvActions(missing: seq<string>)
    ensures IsEnvAction(CreateAction()) && IsEnvAction(AppendAction(missing))
  {
  }

  function CreateIf(files: Files): seq<Action> {
    if !files.envExists && files.exampleExists then [CreateAction()] else []
  }

  function AppendIf(keys: seq<string>): seq<Action> { if keys == [] then [] else [AppendAction(keys)] }

  /** An Env item plans a create over an example without a file, then an append of the keys its sentence yields. */
  lemma EnvItemActions(it: Item, files: Files)
    requires it.category == "Env" && (it.severity == Critical || it.severity == Warning)
    ensures SafeEnvActions([it], files) == CreateIf(files) + AppendIf(ExtractMissingKeys(it.blocker))
  {
    hide ExtractMissingKeys, CreateAction, AppendAction, ItemFixes, SafeEnvActions, IsEnvAction;
    var keys := ExtractMissingKeys(it.blocker);
    SafeEnvActionsOne(it, files);
    EnvItemFixes(it, files);
    var create, append := Planned(Safe, CreateAction()), Planned(Safe, AppendAction(keys));
    var x: seq<Planned> := if !files.envExists && files.exampleExists then [create] else [];
    var y: seq<Planned> := if keys != [] then [append] else [];
    CreateAndAppendAreEnvActions(keys);
    InLaneOne(create, Safe);
    InLaneOne(append, Safe);
    EnvActionsOne(create.action);
    EnvActionsOne(append.action);
    InLaneConcat(x, y, Safe);
    EnvActionsConcat(InLane(x, Safe), InLane(y, Safe));
  }
}
