/** What a plan proposes for each kind of finding: the lane, the commands, and what they apply to. */
module PlanVerdicts {
  import opened Text
  import opened Reports
  import opened FixPlans

  ghost predicate Acted(it: Item) { it.severity == Critical || it.severity == Warning }

  ghost predicate Says(s: string, word: string) { exists i :: Occurs(s, word, i) }

  lemma SaysContains(s: string, word: string)
    ensures Contains(s, word) <==> Says(s, word)
  {
    if i :| Occurs(s, word, i) { ContainsAt(s, word, i); }
    if Contains(s, word) { assert Occurs(s, word, Index(s, word)); }
  }

  /** A finding that is only informational is never acted upon. */
  lemma InfoPlansNothing(it: Item, files: Files)
    requires it.severity == Info
    ensures ItemFixes(it, files) == []
  {
  }

  // ------------------------------------------------------------- guided fixes

  ghost predicate Installs(a: Action, rt: string) {
    && a.id == "install-" + rt && a.title == "Install " + rt && a.appliesTo == [rt]
    && a.commands == InstallCommands(rt) && a.description == InstallHint(rt)
  }

  ghost predicate Switches(a: Action, rt: string, found: string, expected: string) {
    && a.id == "version-" + rt && a.appliesTo == [rt]
    && a.title == rt + ": switch to " + expected + " (found " + found + ")"
    && a.commands == VersionCommands(rt, expected) && a.description == SwitchHint(rt, found, expected)
  }

  /** A runtime finding is guided: an install when what was found says missing, else a switch to what is expected. */
  lemma RuntimePlan(it: Item, files: Files)
    requires Acted(it) && it.category == "Runtime"
    ensures |ItemFixes(it, files)| == 1 && ItemFixes(it, files)[0].lane == Guided
    ensures Says(it.found, "missing") ==> Installs(ItemFixes(it, files)[0].action, Trim(Lower(it.name)))
    ensures !Says(it.found, "missing") ==>
              Switches(ItemFixes(it, files)[0].action, Lower(it.name), it.found, it.expected)
  {
    hide Contains, Says, Lower, Trim, InstallCommands, VersionCommands, NoFix, ServiceFix, DockerFix, EnvFixes;
    SaysContains(it.found, "missing");
    OnRuntime(it, files);
  }

  lemma OnRuntime(it: Item, files: Files)
    requires Acted(it) && it.category == "Runtime"
    ensures ItemFixes(it, files) == [RuntimeFix(it)]
  {
    assert |"Runtime"| == 7 && |"Env"| == 3;
    hide RuntimeFix, NoFix, ServiceFix, DockerFix, EnvFixes;
  }

  lemma ServicePlan(it: Item, files: Files)
    requires Acted(it) && (it.category == "Service" || it.category == "Port")
    ensures |ItemFixes(it, files)| == 1
    ensures var p := ItemFixes(it, files)[0];
      && p.lane == Guided && p.action.id == "service-" + Lower(it.name) && p.action.appliesTo == [it.name]
      && p.action.commands == ["docker compose up -d " + Lower(it.name)]
      && p.action.title == it.name + " is not running" && p.action.description == StartHint(it.name)
  {
    OnService(it, files);
    hide Lower, ItemFixes;
  }

  lemma OnService(it: Item, files: Files)
    requires Acted(it) && (it.category == "Service" || it.category == "Port")
    ensures ItemFixes(it, files) == [ServiceFix(it)]
  {
    assert |"Runtime"| == 7 && |"Env"| == 3 && "Port"[0] == 'P' && "Env"[0] == 'E' && |"Port"| == 4 && |"Service"| == 7;
    assert "Runtime"[0] == 'R' && "Service"[0] == 'S';
    hide RuntimeFix, NoFix, ServiceFix, DockerFix, EnvFixes;
  }

  // ----------------------------------------------------- docker and the rest

  ghost predicate Pulls(a: Action, image: string) {
    && a.id == "docker-pull-" + Lower(image) && a.commands == ["docker pull " + image] && a.appliesTo == [image]
    && a.title == "Pull required Docker image: " + image && a.description == PullsImage && a.safe && a.confirm
  }

  ghost predicate LacksCompose(a: Action, name: string) {
    && a.id == "compose-file-" + name && a.commands == [] && a.appliesTo == [name]
    && a.title == "Missing compose file: " + name && a.description == ComposeMissing(name)
  }

  /** A missing runtime is to be installed, a missing compose file is beyond fixing, the rest are images to pull. */
  lemma DockerPlan(it: Item, files: Files)
    requires Acted(it) && it.category == "Docker"
    ensures |ItemFixes(it, files)| == 1
    ensures var p := ItemFixes(it, files)[0];
      if Says(it.name, "runtime") || Says(it.found, "missing") then p.lane == Guided && Installs(p.action, "docker")
      else if Says(it.name, ".yml") || Says(it.name, ".yaml") then
        p.lane == Unfixable && LacksCompose(p.action, it.name)
      else p.lane == Safe && Pulls(p.action, it.name)
  {
    OnDocker(it, files);
    SaysContains(it.name, "runtime");
    SaysContains(it.found, "missing");
    SaysContains(it.name, ".yml");
    SaysContains(it.name, ".yaml");
    TrimDocker();
    hide Contains, Says, ItemFixes, InstallCommands, Lower, Trim;
  }

  lemma TrimDocker()
    ensures Trim("docker") == "docker"
  {
    TrimOfTrimmed("docker");
  }

  lemma OnDocker(it: Item, files: Files)
    requires Acted(it) && it.category == "Docker"
    ensures ItemFixes(it, files) == [DockerFix(it)]
  {
    assert "Docker"[0] == 'D' && "Runtime"[0] == 'R' && "Env"[0] == 'E' && "Service"[0] == 'S' && "Port"[0] == 'P';
    hide RuntimeFix, NoFix, ServiceFix, DockerFix, EnvFixes;
  }

  /** A finding of any other kind is told, and nothing is proposed. */
  lemma OtherPlan(it: Item, files: Files)
    requires Acted(it) && it.category !in ["Env", "Runtime", "Service", "Port", "Docker"]
    ensures |ItemFixes(it, files)| == 1
    ensures var p := ItemFixes(it, files)[0];
      && p.lane == Unfixable && p.action.id == "info-" + Lower(it.name) && p.action.title == it.name + " drift"
      && p.action.commands == [] && p.action.appliesTo == [it.name] && p.action.description == Drifted(it)
  {
    OnOther(it, files);
    hide Lower, ItemFixes;
  }

  lemma OnOther(it: Item, files: Files)
    requires Acted(it) && it.category !in ["Env", "Runtime", "Service", "Port", "Docker"]
    ensures ItemFixes(it, files) == [NoFix(it)]
  {
    var cs := ["Env", "Runtime", "Service", "Port", "Docker"];
    assert cs[0] in cs && cs[1] in cs && cs[2] in cs && cs[3] in cs && cs[4] in cs;
    hide RuntimeFix, NoFix, ServiceFix, DockerFix, EnvFixes;
  }

  /** An Env finding plans a create where only the example exists, and an append of the keys its sentence names. */
  lemma EnvPlan(it: Item, files: Files)
    requires Acted(it) && it.category == "Env"
    ensures forall p :: p in ItemFixes(it, files) <==>
              || (!files.envExists && files.exampleExists && p == Planned(Safe, CreateAction()))
              || (ExtractMissingKeys(it.blocker) != []
                  && p == Planned(Safe, AppendAction(ExtractMissingKeys(it.blocker))))
    ensures CreateAction().id == "create-env-from-example" && CreateAction().commands == []
         && CreateAction().appliesTo == [".env"] && CreateAction().description == CopiesExample
         && CreateAction().title == "Create .env from .env.example"
    ensures var append := AppendAction(ExtractMissingKeys(it.blocker));
      && append.id == "append-missing-env-keys" && append.commands == []
      && append.appliesTo == ExtractMissingKeys(it.blocker) && append.description == AppendsKeys(append.appliesTo)
      && append.title == "Append missing keys to .env as blank placeholders"
  {
    hide ExtractMissingKeys;
    EnvItemFixes(it, files);
    hide ItemFixes;
  }

  // ------------------------------------------------------------- the commands

  /** What is suggested for a runtime that is not there: it is installed first and used second. */
  lemma InstallsSpelledOut(rt: string)
    requires rt != "docker"
    ensures InstallCommands(rt) ==
            if rt == "node" then ["nvm install 20", "nvm use 20"]
            else if rt == "java" then ["sdk install java 17.0.10-tem", "sdk use java 17.0.10-tem"]
            else if rt == "maven" then ["brew install maven", "sdk install maven"]
            else if rt == "python" then ["pyenv install 3.11", "pyenv local 3.11"]
            else ["# Install " + rt + " using your system package manager"]
  {
  }

  /** The descriptions that repeat what was found say it the right way round. */
  lemma FindingsSpelledOut(it: Item, rt: string, found: string, expected: string)
    ensures Wording(Drifted(it)) ==
            it.category + ": " + it.name + " (found " + it.found + ", expected " + it.expected + ")"
    ensures Wording(SwitchHint(rt, found, expected)) ==
            "Suggested commands to switch " + rt + " from " + found + " to " + expected + ":"
    ensures Wording(InstallHint(rt)) == rt + " is missing. Suggested install commands:"
  {
  }

  /** Every command of a switch names the expected version, the closing remark for node apart. */
  lemma SwitchNamesVersion(rt: string, expected: string, i: nat)
    requires i < |VersionCommands(rt, expected)| && !(rt == "node" && i == 2)
    ensures Says(VersionCommands(rt, expected)[i], expected)
  {
    var c := VersionCommands(rt, expected)[i];
    if rt == "node" {
      Behind(if i == 0 then "nvm install " else "nvm use ", expected, "");
    } else if rt == "java" {
      Behind(if i == 0 then "sdk install java " else "sdk use java ", expected, "");
    } else if rt == "python" {
      Behind(if i == 0 then "pyenv install " else "pyenv local ", expected, "");
    } else {
      Behind("# Switch " + rt + " to version ", expected, " using your version manager");
    }
  }

  lemma Behind(pre: string, w: string, post: string)
    ensures Says(pre + w + post, w) && Says(pre + w, w)
  {
    assert Occurs(pre + w + post, w, |pre|) && Occurs(pre + w, w, |pre|);
  }
}
