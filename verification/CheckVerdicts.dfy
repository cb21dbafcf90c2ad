/** What the env and runtime checks report, item by item, read off the config and the machine. */
module CheckVerdicts {
  import opened Prelude
  import opened Text
  import opened Decimal
  import opened Sorting
  import opened Reports
  import opened Model
  import opened Checks
  import opened Spelling
  import opened VersionReq

  // ------------------------------------------------ a requirement's verdict

  /** A requirement that asks for presence only. */
  ghost predicate AsksPresenceOnly(req: string) {
    var t := Trim(req);
    t == "" || t == "*" || Spelled(t, "required") || Spelled(t, "present") || Spelled(t, "any")
  }

  lemma KeywordSpelled(req: string)
    ensures IsRequiredKeyword(req) <==> AsksPresenceOnly(req)
  {
    hide Trim, EqualFold, Spelled;
    var t := Trim(req);
    KeywordFolds(t);
    EqualFoldSpells(t, "required");
    EqualFoldSpells(t, "present");
    EqualFoldSpells(t, "any");
  }

  lemma KeywordFolds(t: string)
    ensures Lower(t) in ["required", "present", "any", "*", ""] <==>
              t == "" || t == "*" || EqualFold(t, "required") || EqualFold(t, "present") || EqualFold(t, "any")
  {
    LowerWords();
    if Lower(t) == "*" { assert |t| == 1 && LowerChar(t[0]) == '*'; }
    if t == "*" { assert Lower(t) == "*"; }
  }

  lemma LowerWords()
    ensures Lower("required") == "required" && Lower("present") == "present" && Lower("any") == "any"
  {
  }

  /** The first comparator that does not hold for the version comes out so. */
  ghost predicate StopsWith(version: string, req: string, o: Outcome) {
    && Parse(version).Some? && o != Holds
    && exists k | 0 <= k < |Comparators(req)| :: FirstNotHolding(Parse(version).value, Comparators(req), k, o)
  }

  ghost predicate FirstNotHolding(v: seq<int>, comps: seq<string>, k: nat, o: Outcome)
    requires k < |comps|
  {
    Accepts(comps[..k], v) && EvalComparator(v, comps[k]) == o
  }

  /** The requirement is violated for sure. */
  ghost predicate Violates(v: VersionInfo, req: string) {
    !v.present || (!AsksPresenceOnly(req) && StopsWith(v.version, req, Fails))
  }

  /** The version, or the comparator that decides, cannot be read. */
  ghost predicate Undecidable(v: VersionInfo, req: string) {
    v.present && !AsksPresenceOnly(req) && (Parse(v.version) == None || StopsWith(v.version, req, Unreadable))
  }

  lemma CheckStops(version: string, req: string)
    ensures var r := Check(version, req);
      && (!r.ok && r.parsed <==> StopsWith(version, req, Fails))
      && (!r.parsed <==> Parse(version) == None || StopsWith(version, req, Unreadable))
      && (r.ok ==> r.parsed)
  {
    hide Parse, Comparators, EvalComparator, Accepts;
    if Parse(version).Some? {
      var v, comps := Parse(version).value, Comparators(req);
      var k := CheckStopsAt(v, comps);
      if k < |comps| { assert FirstNotHolding(v, comps, k, EvalComparator(v, comps[k])); }
      forall j, o | 0 <= j < |comps| && o != Holds && FirstNotHolding(v, comps, j, o)
        ensures j == k
      {
        FirstIsUnique(v, comps, j, k);
      }
    }
  }

  lemma FirstIsUnique(v: seq<int>, comps: seq<string>, j: nat, k: nat)
    requires j < |comps| && k <= |comps| && Accepts(comps[..j], v) && Accepts(comps[..k], v)
    requires EvalComparator(v, comps[j]) != Holds && (k < |comps| ==> EvalComparator(v, comps[k]) != Holds)
    ensures j == k
  {
    hide EvalComparator;
  }

  // ------------------------------------------------------- the runtime items

  ghost function SaysMissing(name: string): string { name + " is missing" }

  ghost function SaysMismatch(name: string, found: string, expected: string): string {
    name + " version does not match requirement (found " + found + ", expected " + expected + ")"
  }

  ghost function SaysUnverified(name: string, found: string, expected: string): string {
    name + " version \"" + found + "\" could not be verified against \"" + expected + "\""
  }

  lemma ItemsSay(name: string, version: string, req: string)
    ensures MissingRuntime(name, req) == Item("Runtime", name, "missing", req, Critical, SaysMissing(name))
    ensures MismatchedRuntime(name, version, req)
         == Item("Runtime", name, version, req, Critical, SaysMismatch(name, version, req))
    ensures UnverifiedRuntime(name, version, req)
         == Item("Runtime", name, version, req, Warning, SaysUnverified(name, version, req))
  {
  }

  /** The one item a configured runtime deserves, if any. */
  ghost predicate Deserved(it: Item, req: string, info: Option<VersionInfo>) {
    it.category == "Runtime" &&
    match info
    case None => it.severity == Warning && it.found == "unknown runtime" && it.expected == req && it.blocker == ""
    case Some(v) =>
      || (!v.present && it.severity == Critical && it.found == "missing"
          && it.expected == (if AsksPresenceOnly(req) then "required" else req)
          && it.blocker == SaysMissing(it.name))
      || (v.present && Violates(v, req) && it.severity == Critical && it.found == v.version && it.expected == req
          && it.blocker == SaysMismatch(it.name, v.version, req))
      || (Undecidable(v, req) && it.severity == Warning && it.found == v.version && it.expected == req
          && it.blocker == SaysUnverified(it.name, v.version, req))
  }

  lemma FindingDeserved(name: string, req: string, info: Option<VersionInfo>, it: Item)
    ensures it in RuntimeFinding(name, req, info) <==> it.name == name && Deserved(it, req, info)
    ensures |RuntimeFinding(name, req, info)| <= 1
  {
    hide IsRequiredKeyword, AsksPresenceOnly, Check, StopsWith, Parse, MissingRuntime, MismatchedRuntime,
      UnverifiedRuntime, SaysMissing, SaysMismatch, SaysUnverified;
    KeywordSpelled(req);
    ItemsSay(name, "", "required");
    if info.Some? {
      CheckStops(info.value.version, req);
      ItemsSay(name, info.value.version, req);
    }
  }

  ghost predicate Configured(wanted: map<string, string>, ignore: seq<string>, name: string) {
    name in wanted && !exists i | 0 <= i < |ignore| :: Spelled(ignore[i], name)
  }

  lemma IgnoredSpelled(ignore: seq<string>, name: string)
    ensures Ignored(ignore, name) <==> exists i | 0 <= i < |ignore| :: Spelled(ignore[i], name)
  {
    hide EqualFold, Spelled;
    forall i | 0 <= i < |ignore|
      ensures EqualFold(ignore[i], name) <==> Spelled(ignore[i], name)
    {
      EqualFoldSpells(ignore[i], name);
    }
  }

  lemma {:induction false} ItemsByName(names: seq<string>, wanted: map<string, string>, ignore: seq<string>,
      runtimes: Runtimes, it: Item)
    requires forall n | n in names :: n in wanted
    ensures it in RuntimeItems(names, wanted, ignore, runtimes) <==>
              it.name in names && Configured(wanted, ignore, it.name)
              && Deserved(it, wanted[it.name], LookupRuntime(runtimes, it.name))
  {
    hide RuntimeFinding, Deserved, LookupRuntime, Ignored, Spelled;
    if names != [] {
      var front, name := names[..|names| - 1], names[|names| - 1];
      assert names == front + [name];
      ItemsByName(front, wanted, ignore, runtimes, it);
      IgnoredSpelled(ignore, name);
      FindingDeserved(name, wanted[name], LookupRuntime(runtimes, name), it);
    }
  }

  /** Every item of the runtime check, and no other. */
  lemma RuntimeItemsExactly(wanted: map<string, string>, ignore: seq<string>, runtimes: Runtimes, it: Item)
    ensures it in RuntimeItems(SortedNames(wanted.Keys), wanted, ignore, runtimes) <==>
              Configured(wanted, ignore, it.name) && Deserved(it, wanted[it.name], LookupRuntime(runtimes, it.name))
  {
    hide Deserved, Spelled;
    ItemsByName(SortedNames(wanted.Keys), wanted, ignore, runtimes, it);
  }

  ghost predicate HasItem(items: seq<Item>, name: string, s: Severity) {
    exists it :: it in items && it.name == name && it.severity == s
  }

  lemma DeservedExists(name: string, req: string, info: Option<VersionInfo>, s: Severity)
    ensures (exists it: Item :: it.name == name && it.severity == s && Deserved(it, req, info)) <==>
              match s
              case Critical => info.Some? && Violates(info.value, req)
              case Warning => info == None || Undecidable(info.value, req)
              case Info => false
  {
    hide AsksPresenceOnly, StopsWith, Parse, SaysMissing, SaysMismatch, SaysUnverified;
    match info {
      case None => assert Deserved(Item("Runtime", name, "unknown runtime", req, Warning, ""), req, info);
      case Some(v) =>
        var shown := if AsksPresenceOnly(req) then "required" else req;
        var missing := Item("Runtime", name, "missing", shown, Critical, SaysMissing(name));
        var mismatch := Item("Runtime", name, v.version, req, Critical, SaysMismatch(name, v.version, req));
        var unverified := Item("Runtime", name, v.version, req, Warning, SaysUnverified(name, v.version, req));
        assert !v.present ==> Deserved(missing, req, info);
        assert v.present && Violates(v, req) ==> Deserved(mismatch, req, info);
        assert Undecidable(v, req) ==> Deserved(unverified, req, info);
    }
  }

  /**
   The verdict on each configured runtime: critical iff it is absent, or the requirement asks for
   more than presence and the first comparator that does not hold fails; a warning iff it is
   unknown, or its version or that comparator cannot be read; otherwise nothing.
   */
  lemma RuntimeVerdict(wanted: map<string, string>, ignore: seq<string>, runtimes: Runtimes, name: string)
    ensures var items := RuntimeItems(SortedNames(wanted.Keys), wanted, ignore, runtimes);
      var info := LookupRuntime(runtimes, name);
      && (HasItem(items, name, Critical) <==>
            Configured(wanted, ignore, name) && info.Some? && Violates(info.value, wanted[name]))
      && (HasItem(items, name, Warning) <==>
            Configured(wanted, ignore, name) && (info == None || Undecidable(info.value, wanted[name])))
      && !HasItem(items, name, Info)
  {
    hide Deserved, Configured, Violates, Undecidable, LookupRuntime, RuntimeItems;
    var items := RuntimeItems(SortedNames(wanted.Keys), wanted, ignore, runtimes);
    forall it: Item { RuntimeItemsExactly(wanted, ignore, runtimes, it); }
    ConfiguredIsWanted(wanted, ignore, name);
    forall s: Severity
      ensures HasItem(items, name, s) <==>
                Configured(wanted, ignore, name) &&
                exists it: Item :: it.name == name && it.severity == s
                                   && Deserved(it, wanted[name], LookupRuntime(runtimes, name))
    {
    }
    if Configured(wanted, ignore, name) {
      var info := LookupRuntime(runtimes, name);
      DeservedExists(name, wanted[name], info, Critical);
      DeservedExists(name, wanted[name], info, Warning);
      DeservedExists(name, wanted[name], info, Info);
    }
  }

  lemma ConfiguredIsWanted(wanted: map<string, string>, ignore: seq<string>, name: string)
    ensures Configured(wanted, ignore, name) ==> name in wanted
  {
  }

  /** Items stand in ascending order of their names, so each runtime has at most one. */
  ghost predicate NamesAscend(items: seq<Item>) {
    forall i, j | 0 <= i < j < |items| :: StringLess(items[i].name, items[j].name)
  }

  lemma {:induction false} ItemsAscend(names: seq<string>, wanted: map<string, string>, ignore: seq<string>,
      runtimes: Runtimes)
    requires Ascending(StringLess, names) && forall n | n in names :: n in wanted
    ensures NamesAscend(RuntimeItems(names, wanted, ignore, runtimes))
  {
    hide RuntimeFinding, LookupRuntime, Ignored, StringLess;
    if names != [] {
      var front, name := names[..|names| - 1], names[|names| - 1];
      ItemsAscend(front, wanted, ignore, runtimes);
      var before, last := RuntimeItems(front, wanted, ignore, runtimes), FindingFor(name, wanted, ignore, runtimes);
      forall it: Item
        ensures it in before ==> it.name in front
        ensures it in last ==> it.name == name
        ensures |last| <= 1
      {
        ItemsByName(front, wanted, ignore, runtimes, it);
        FindingDeserved(name, wanted[name], LookupRuntime(runtimes, name), it);
      }
      assert forall i | 0 <= i < |before| :: before[i] in before;
      assert forall i | 0 <= i < |last| :: last[i] in last;
      assert |last| <= 1 by { FindingDeserved(name, wanted[name], LookupRuntime(runtimes, name), Blank()); }
      assert forall n | n in front :: StringLess(n, name) by {
        assert forall k | 0 <= k < |front| :: front[k] == names[k];
      }
    }
  }

  function Blank(): Item { Item("", "", "", "", Info, "") }

  lemma RuntimeItemsAscend(wanted: map<string, string>, ignore: seq<string>, runtimes: Runtimes)
    ensures NamesAscend(RuntimeItems(SortedNames(wanted.Keys), wanted, ignore, runtimes))
  {
    StringOrder();
    ItemsAscend(SortedNames(wanted.Keys), wanted, ignore, runtimes);
  }

  // ------------------------------------------------------------ the env items

  lemma MissingSnoc(x: seq<string>, k: string, file: Option<string>)
    ensures Missing(x + [k], file) == Missing(x, file) + if Declares(file, k) then [] else [k]
  {
    hide Declares;
    assert (x + [k])[..|x|] == x;
  }

  lemma LastApart(a: seq<string>, b: seq<string>) returns (front: seq<string>, k: string)
    requires b != []
    ensures b == front + [k] && a + b == (a + front) + [k] && |front| < |b|
  {
    front, k := b[..|b| - 1], b[|b| - 1];
  }

  lemma Regrouped(x: seq<string>, y: seq<string>, z: seq<string>)
    ensures (x + y) + z == x + (y + z)
  {
  }

  lemma {:induction false} MissingSplits(a: seq<string>, b: seq<string>, file: Option<string>)
    ensures Missing(a + b, file) == Missing(a, file) + Missing(b, file)
    decreases |b|
  {
    if b == [] {
      assert a + b == a && Missing([], file) == [];
    } else {
      hide *;
      var front, k := LastApart(a, b);
      MissingSplits(a, front, file);
      MissingSnoc(a + front, k, file);
      MissingSnoc(front, k, file);
      Regrouped(Missing(a, file), Missing(front, file), if Declares(file, k) then [] else [k]);
    }
  }

  lemma MissingOne(k: string, file: Option<string>)
    ensures Missing([k], file) == if Declares(file, k) then [] else [k]
  {
    MissingSnoc([], k, file);
    assert [] + [k] == [k];
  }

  /** The undeclared keys keep the order of the config, repeats included. */
  lemma MissingInOrder(a: seq<string>, b: seq<string>, k: string, file: Option<string>)
    ensures Missing(a + b, file) == Missing(a, file) + Missing(b, file)
    ensures Missing([k], file) == if Declares(file, k) then [] else [k]
  {
    hide *;
    MissingSplits(a, b, file);
    MissingOne(k, file);
  }

  ghost function CountOf(n: nat, kind: string): string {
    FormatNat(n) + " " + kind + (if n == 1 then " key missing" else " keys missing")
  }

  /** One critical item for the required keys, one warning for the recommended ones, each naming its keys. */
  ghost predicate EnvItemDeserved(it: Item, cfg: EnvConfig, file: Option<string>) {
    var req, rec := Missing(cfg.required, file), Missing(cfg.recommended, file);
    && it.category == "Env" && it.name == ".env"
    && match it.severity
       case Critical =>
         && (exists k | k in cfg.required :: !Declares(file, k))
         && it.found == CountOf(|req|, "required") && it.expected == "all present"
         && it.blocker == AbsentSentence(MustHave, req)
       case Warning =>
         && (exists k | k in cfg.recommended :: !Declares(file, k))
         && it.found == CountOf(|rec|, "recommended") && it.expected == "present (recommended)"
         && it.blocker == AbsentSentence(ShouldHave, rec)
       case Info => false
  }

  lemma CountText(n: nat)
    ensures FormatNat(n) + " required " + Plural("key", n) + " missing" == CountOf(n, "required")
    ensures FormatNat(n) + " recommended " + Plural("key", n) + " missing" == CountOf(n, "recommended")
  {
    hide FormatNat, Plural;
    assert " required " == " " + "required" + " " && " recommended " == " " + "recommended" + " ";
    CountKind(FormatNat(n), "required", " required ", n);
    CountKind(FormatNat(n), "recommended", " recommended ", n);
  }

  lemma CountKind(f: string, kind: string, spaced: string, n: nat)
    requires spaced == " " + kind + " "
    ensures f + spaced + Plural("key", n) + " missing"
         == f + " " + kind + (if n == 1 then " key missing" else " keys missing")
  {
    var p := Plural("key", n);
    KeyMissing(n);
    hide Plural;
    assert f + spaced + p + " missing" == f + " " + kind + (" " + p + " missing");
  }

  lemma KeyMissing(n: nat)
    ensures " " + Plural("key", n) + " missing" == if n == 1 then " key missing" else " keys missing"
  {
    assert "key" + "s" == "keys";
  }

  ghost function AbsentSentence(w: Want, keys: seq<string>): string {
    (if w == MustHave then "Required env keys are absent: " else "Recommended env keys are absent: ") + Join(keys, ", ")
  }

  lemma EnvItemSays(w: Want, keys: seq<string>)
    ensures EnvItem(w, keys) ==
            if w == MustHave then
              Item("Env", ".env", CountOf(|keys|, "required"), "all present", Critical, AbsentSentence(w, keys))
            else
              Item("Env", ".env", CountOf(|keys|, "recommended"), "present (recommended)", Warning,
                   AbsentSentence(w, keys))
  {
    CountText(|keys|);
    hide FormatNat, CountOf, Join;
  }

  /** Every item of the env check, and no other. */
  lemma EnvItemsExactly(cfg: EnvConfig, file: Option<string>, it: Item)
    ensures it in EnvItems(cfg, file) <==> EnvItemDeserved(it, cfg, file)
  {
    var req, rec := Missing(cfg.required, file), Missing(cfg.recommended, file);
    EnvItemSays(MustHave, req);
    EnvItemSays(ShouldHave, rec);
    hide EnvItem, CountOf, Declares, Join;
    assert req != [] ==> req[0] in req;
    assert rec != [] ==> rec[0] in rec;
  }

  /** The env check fails iff a required key is not declared, and warns iff a recommended one is not. */
  lemma EnvVerdict(cfg: EnvConfig, file: Option<string>)
    ensures HasSeverity(EnvItems(cfg, file), Critical) <==> exists k | k in cfg.required :: !Declares(file, k)
    ensures HasSeverity(EnvItems(cfg, file), Warning) <==> exists k | k in cfg.recommended :: !Declares(file, k)
    ensures !HasSeverity(EnvItems(cfg, file), Info)
  {
    var req, rec := Missing(cfg.required, file), Missing(cfg.recommended, file);
    EnvItemSays(MustHave, req);
    EnvItemSays(ShouldHave, rec);
    hide EnvItem, CountOf, Declares, AbsentSentence;
    assert req != [] ==> req[0] in req && EnvItem(MustHave, req) in EnvItems(cfg, file);
    assert rec != [] ==> rec[0] in rec && EnvItem(ShouldHave, rec) in EnvItems(cfg, file);
  }

  ghost predicate HasSeverity(items: seq<Item>, s: Severity) { exists it :: it in items && it.severity == s }

  // --------------------------------------------------------------- the verdict

  ghost predicate Broken(wanted: map<string, string>, ignore: seq<string>, runtimes: Runtimes, name: string) {
    var info := LookupRuntime(runtimes, name);
    Configured(wanted, ignore, name) && info.Some? && Violates(info.value, wanted[name])
  }

  /**
   The setup is not ready iff a required key is undeclared, or a configured runtime is absent or
   violates its requirement for sure.
   */
  lemma SetupFailsExactly(cfg: EnvConfig, file: Option<string>, wanted: map<string, string>, ignore: seq<string>,
      runtimes: Runtimes)
    ensures var items := RuntimeItems(SortedNames(wanted.Keys), wanted, ignore, runtimes) + EnvItems(cfg, file);
      HasSeverity(items, Critical) <==>
        (exists k | k in cfg.required :: !Declares(file, k)) || exists name :: Broken(wanted, ignore, runtimes, name)
  {
    hide RuntimeItems, EnvItems, Declares, Configured, Violates, LookupRuntime;
    var rs, es := RuntimeItems(SortedNames(wanted.Keys), wanted, ignore, runtimes), EnvItems(cfg, file);
    EnvVerdict(cfg, file);
    forall name { RuntimeVerdict(wanted, ignore, runtimes, name); }
    assert forall name :: Broken(wanted, ignore, runtimes, name) <==> HasItem(rs, name, Critical);
    if it :| it in rs && it.severity == Critical { assert HasItem(rs, it.name, Critical); }
    assert forall it :: it in rs + es <==> it in rs || it in es;
    assert HasSeverity(rs, Critical) <==> exists name :: HasItem(rs, name, Critical);
  }

  /** Nothing required is undeclared, and no configured runtime is for sure not what was asked. */
  ghost predicate SetupSound(cfg: EnvConfig, file: Option<string>, wanted: map<string, string>, ignore: seq<string>,
      runtimes: Runtimes) {
    (forall k | k in cfg.required :: Declares(file, k)) && !exists name :: Broken(wanted, ignore, runtimes, name)
  }

  lemma FailedMeans(cfg: EnvConfig, file: Option<string>, wanted: map<string, string>, ignore: seq<string>,
      runtimes: Runtimes)
    ensures var items := RuntimeItems(SortedNames(wanted.Keys), wanted, ignore, runtimes) + EnvItems(cfg, file);
      (exists it | it in items :: it.severity == Critical) <==> !SetupSound(cfg, file, wanted, ignore, runtimes)
  {
    hide RuntimeItems, EnvItems, Declares, Broken;
    SetupFailsExactly(cfg, file, wanted, ignore, runtimes);
  }

  function SetupStatus(ready: bool): string {
    if ready then "Your setup is ready" else "Your setup is not ready"
  }

  lemma StatusSpelledOut()
    ensures SetupStatus(true) == "Your setup is ready" && SetupStatus(false) == "Your setup is not ready"
  {
  }

  /** What the program's report says after both checks: the loop over its items finds exactly that. */
  method CheckSetup(cfg: EnvConfig, file: Option<string>, wanted: map<string, string>, ignore: seq<string>,
      runtimes: Runtimes) returns (r: Report, ready: bool)
    ensures fresh(r)
    ensures r.items == RuntimeItems(SortedNames(wanted.Keys), wanted, ignore, runtimes) + EnvItems(cfg, file)
    ensures ready <==> SetupSound(cfg, file, wanted, ignore, runtimes)
    ensures r.foundLabel == "found" && r.expLabel == "expected" && r.status == SetupStatus(ready)
  {
    hide *;
    r := new Report();
    CheckRuntimes(r, wanted, ignore, runtimes);
    ghost var found := RuntimeItems(SortedNames(wanted.Keys), wanted, ignore, runtimes);
    assert [] + found == found;
    CheckEnv(r, cfg, file);
    FailedMeans(cfg, file, wanted, ignore, runtimes);
    var failed := r.Failed();
    ready := !failed;
    r.foundLabel, r.expLabel, r.status := "found", "expected", SetupStatus(ready);
  }
}
