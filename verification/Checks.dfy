/** The env and runtime checks: what they append to the report. */
module Checks {
  import opened Prelude
  import opened Text
  import opened Decimal
  import opened Sorting
  import opened EnvText
  import opened Reports
  import opened Model
  import VersionReq

  // ------------------------------------------------------------- env keys

  datatype EnvConfig = EnvConfig(required: seq<string>, recommended: seq<string>)

  predicate Declares(file: Option<string>, key: string) { file.Some? && key in ReadKeys(file.value) }

  /** The wanted keys the file does not declare; all of them when there is no file. */
  function Missing(wanted: seq<string>, file: Option<string>): (r: seq<string>)
    ensures forall k :: k in r <==> k in wanted && !Declares(file, k)
  {
    if wanted == [] then []
    else
      var last := wanted[|wanted| - 1];
      assert wanted == wanted[..|wanted| - 1] + [last];
      Missing(wanted[..|wanted| - 1], file) + if Declares(file, last) then [] else [last]
  }

  datatype Want = MustHave | ShouldHave

  function SentenceStart(w: Want): string {
    match w
    case MustHave => "Required env keys are absent: "
    case ShouldHave => "Recommended env keys are absent: "
  }

  /** The blocker sentence that names the keys. */
  function Sentence(w: Want, keys: seq<string>): string { SentenceStart(w) + Join(keys, ", ") }

  function Plural(word: string, n: nat): string { if n == 1 then word else word + "s" }

  function EnvItem(w: Want, missing: seq<string>): Item {
    match w
    case MustHave =>
      Item("Env", ".env", FormatNat(|missing|) + " required " + Plural("key", |missing|) + " missing",
           "all present", Critical, Sentence(w, missing))
    case ShouldHave =>
      Item("Env", ".env", FormatNat(|missing|) + " recommended " + Plural("key", |missing|) + " missing",
           "present (recommended)", Warning, Sentence(w, missing))
  }

  function GroupedItem(w: Want, missing: seq<string>): seq<Item> {
    if missing == [] then [] else [EnvItem(w, missing)]
  }

  function EnvItems(cfg: EnvConfig, file: Option<string>): seq<Item> {
    GroupedItem(MustHave, Missing(cfg.required, file)) + GroupedItem(ShouldHave, Missing(cfg.recommended, file))
  }

  /** Nothing to report means every wanted key is declared, and the other way round. */
  lemma EnvCleanExactly(cfg: EnvConfig, file: Option<string>)
    ensures EnvItems(cfg, file) == [] <==>
              forall k | k in cfg.required || k in cfg.recommended :: Declares(file, k)
  {
    var r, c := Missing(cfg.required, file), Missing(cfg.recommended, file);
    if r != [] { assert r[0] in r; }
    if c != [] { assert c[0] in c; }
  }

  lemma {:induction false} AllMissing(wanted: seq<string>)
    ensures Missing(wanted, None) == wanted
  {
    if wanted != [] {
      AllMissing(wanted[..|wanted| - 1]);
    }
  }

  method CollectMissing(wanted: seq<string>, present: set<string>, found: bool, ghost file: Option<string>)
      returns (missing: seq<string>)
    requires found == file.Some? && (found ==> present == set k | k in ReadKeys(file.value))
    ensures missing == Missing(wanted, file)
  {
    hide ReadKeys;
    missing := [];
    for i := 0 to |wanted|
      invariant missing == Missing(wanted[..i], file)
    {
      assert wanted[..i + 1][..i] == wanted[..i];
      if !found || wanted[i] !in present {
        missing := missing + [wanted[i]];
      }
    }
    assert wanted[..|wanted|] == wanted;
  }

  method CheckEnv(r: Report, cfg: EnvConfig, file: Option<string>)
    modifies r`items
    ensures r.items == old(r.items) + EnvItems(cfg, file)
  {
    hide ReadKeys, EnvItem;
    if cfg.required == [] && cfg.recommended == [] {
      return;
    }
    var keys, found := ReadEnvKeys(file);
    var present := set k | k in keys;
    var missingRequired := CollectMissing(cfg.required, present, found, file);
    if missingRequired != [] {
      r.Add(EnvItem(MustHave, missingRequired));
    }
    var missingRecommended := CollectMissing(cfg.recommended, present, found, file);
    if missingRecommended != [] {
      r.Add(EnvItem(ShouldHave, missingRecommended));
    }
  }

  // ------------------------------------------------------------- runtimes

  function MissingRuntime(name: string, expected: string): Item {
    Item("Runtime", name, "missing", expected, Critical, name + " is missing")
  }

  function UnverifiedRuntime(name: string, version: string, req: string): Item {
    Item("Runtime", name, version, req, Warning,
         name + " version \"" + version + "\" could not be verified against \"" + req + "\"")
  }

  function MismatchedRuntime(name: string, version: string, req: string): Item {
    Item("Runtime", name, version, req, Critical,
         name + " version does not match requirement (found " + version + ", expected " + req + ")")
  }

  function RuntimeFinding(name: string, req: string, info: Option<VersionInfo>): seq<Item> {
    match info
    case None => [Item("Runtime", name, "unknown runtime", req, Warning, "")]
    case Some(v) =>
      if VersionReq.IsRequiredKeyword(req) then
        if v.present then [] else [MissingRuntime(name, "required")]
      else if !v.present then [MissingRuntime(name, req)]
      else
        var res := VersionReq.Check(v.version, req);
        if res.ok then []
        else if !res.parsed then [UnverifiedRuntime(name, v.version, req)]
        else [MismatchedRuntime(name, v.version, req)]
  }

  predicate Ignored(ignore: seq<string>, name: string) {
    exists i | 0 <= i < |ignore| :: EqualFold(ignore[i], name)
  }

  function RuntimeItems(names: seq<string>, wanted: map<string, string>, ignore: seq<string>,
      runtimes: Runtimes): seq<Item>
    requires forall n | n in names :: n in wanted
  {
    if names == [] then []
    else
      var front, name := names[..|names| - 1], names[|names| - 1];
      RuntimeItems(front, wanted, ignore, runtimes) + FindingFor(name, wanted, ignore, runtimes)
  }

  ghost function SortedNames(names: set<string>): (r: seq<string>)
    ensures forall n :: n in r <==> n in names
  {
    StringOrder();
    Listing(StringLess, names)
  }

  /** One config entry against the snapshot. */
  method CheckRuntime(r: Report, name: string, req: string, runtimes: Runtimes)
    modifies r`items
    ensures r.items == old(r.items) + RuntimeFinding(name, req, LookupRuntime(runtimes, name))
  {
    var info := LookupRuntime(runtimes, name);
    if info == None {
      r.Add(Item("Runtime", name, "unknown runtime", req, Warning, ""));
      return;
    }
    if VersionReq.IsRequiredKeyword(req) {
      if !info.value.present {
        r.Add(MissingRuntime(name, "required"));
      }
      return;
    }
    if !info.value.present {
      r.Add(MissingRuntime(name, req));
      return;
    }
    var res := VersionReq.CheckRequirement(info.value.version, req);
    if !res.ok {
      if !res.parsed {
        r.Add(UnverifiedRuntime(name, info.value.version, req));
      } else {
        r.Add(MismatchedRuntime(name, info.value.version, req));
      }
    }
  }

  function FindingFor(name: string, wanted: map<string, string>, ignore: seq<string>, runtimes: Runtimes): seq<Item>
    requires name in wanted
  {
    if Ignored(ignore, name) then [] else RuntimeFinding(name, wanted[name], LookupRuntime(runtimes, name))
  }

  method CheckRuntimesInOrder(r: Report, names: seq<string>, wanted: map<string, string>, ignore: seq<string>,
      runtimes: Runtimes)
    requires forall n | n in names :: n in wanted
    modifies r`items
    ensures r.items == old(r.items) + RuntimeItems(names, wanted, ignore, runtimes)
  {
    hide RuntimeFinding, Ignored, LookupRuntime;
    for i := 0 to |names|
      invariant r.items == old(r.items) + RuntimeItems(names[..i], wanted, ignore, runtimes)
    {
      assert names[..i + 1][..i] == names[..i];
      ghost var before := r.items;
      if !Ignored(ignore, names[i]) {
        CheckRuntime(r, names[i], wanted[names[i]], runtimes);
      }
      assert r.items == before + FindingFor(names[i], wanted, ignore, runtimes);
    }
    assert names[..|names|] == names;
  }

  method CheckRuntimes(r: Report, wanted: map<string, string>, ignore: seq<string>, runtimes: Runtimes)
    modifies r`items
    ensures r.items == old(r.items) + RuntimeItems(SortedNames(wanted.Keys), wanted, ignore, runtimes)
  {
    StringOrder();
    var names := SortElements(StringLess, wanted.Keys);
    CheckRuntimesInOrder(r, names, wanted, ignore, runtimes);
  }
}
