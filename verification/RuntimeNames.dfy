/** Which field a runtime name stands for, and which runtimes a manifest implies. */
module RuntimeNames {
  import opened Prelude
  import opened Text
  import opened Model
  import opened Spelling
  import InitCfg
  import Diff

  /** Each name with its field, spelled out. */
  ghost function Named(r: Runtimes, i: nat): (string, VersionInfo)
    requires i < 14
  {
    if i == 0 then ("Node", r.node) else if i == 1 then ("npm", r.npm) else if i == 2 then ("pnpm", r.pnpm)
    else if i == 3 then ("Yarn", r.yarn) else if i == 4 then ("Python", r.python) else if i == 5 then ("pip", r.pip)
    else if i == 6 then ("uv", r.uv) else if i == 7 then ("Java", r.java) else if i == 8 then ("Maven", r.maven)
    else if i == 9 then ("Gradle", r.gradle) else if i == 10 then ("Go", r.golang) else if i == 11 then ("Rust", r.rust)
    else if i == 12 then ("Cargo", r.cargo) else ("Docker", r.docker)
  }

  lemma FieldsInOrder(r: Runtimes, i: nat)
    requires i < 14
    ensures |RUNTIME_NAMES| == 14 && Named(r, i) == (RUNTIME_NAMES[i], RuntimeInfos(r)[i])
  {
  }

  /** Length and first letter tell the names apart. */
  ghost function Mark(s: string): (nat, char)
    requires s != ""
  {
    (|s|, LowerChar(s[0]))
  }

  ghost function MarkOf(i: nat): (nat, char)
    requires i < 14
  {
    if i == 0 then (4, 'n') else if i == 1 then (3, 'n') else if i == 2 then (4, 'p') else if i == 3 then (4, 'y')
    else if i == 4 then (6, 'p') else if i == 5 then (3, 'p') else if i == 6 then (2, 'u') else if i == 7 then (4, 'j')
    else if i == 8 then (5, 'm') else if i == 9 then (6, 'g') else if i == 10 then (2, 'g')
    else if i == 11 then (4, 'r')
    else if i == 12 then (5, 'c') else (6, 'd')
  }

  lemma NamesAreMarked(r: Runtimes, i: nat)
    requires i < 14
    ensures Named(r, i).0 != "" && Mark(Named(r, i).0) == MarkOf(i)
  {
  }

  lemma MarksDiffer(i: nat, j: nat)
    requires i < 14 && j < 14 && MarkOf(i) == MarkOf(j)
    ensures i == j
  {
  }

  lemma FoldedMark(a: string, b: string)
    requires EqualFold(a, b) && a != ""
    ensures b != "" && Mark(a) == Mark(b)
  {
    assert |Lower(a)| == |a| && |Lower(b)| == |b| && Lower(a)[0] == Lower(b)[0];
  }

  /** A name in any letter case finds its own field; any other name finds none. */
  lemma LookupByName(r: Runtimes, name: string, i: nat)
    requires i < 14
    ensures Spelled(Named(r, i).0, name) ==> LookupRuntime(r, name) == Some(Named(r, i).1)
    ensures (forall j | 0 <= j < 14 :: !Spelled(Named(r, j).0, name)) ==> LookupRuntime(r, name) == None
  {
    hide EqualFold, Spelled, Named, RUNTIME_NAMES, RuntimeInfos, Mark, MarkOf;
    forall j: nat | j < 14
      ensures |RUNTIME_NAMES| == 14 && Named(r, j) == (RUNTIME_NAMES[j], RuntimeInfos(r)[j])
      ensures EqualFold(RUNTIME_NAMES[j], name) <==> Spelled(Named(r, j).0, name)
    {
      FieldsInOrder(r, j);
      EqualFoldSpells(RUNTIME_NAMES[j], name);
    }
    FieldsInOrder(r, i);
    var found := RuntimeIndexFrom(name, 0);
    if Spelled(Named(r, i).0, name) && found.Some? {
      var j := found.value;
      NamesAreMarked(r, i);
      NamesAreMarked(r, j);
      FoldedMark(RUNTIME_NAMES[i], name);
      FoldedMark(RUNTIME_NAMES[j], name);
      MarksDiffer(i, j);
    }
  }

  // ---------------------------------------------------- what manifests imply

  /** The manifests that imply each runtime of a generated config. */
  ghost predicate Implies(manifest: string, rt: string) {
    || (rt == "node" && manifest == "package.json")
    || (rt == "npm" && manifest == "package.json")
    || (rt == "go" && manifest == "go.mod")
    || (rt == "java" && manifest in ["pom.xml", "build.gradle", "build.gradle.kts"])
    || (rt == "maven" && manifest == "pom.xml")
    || (rt == "gradle" && manifest in ["build.gradle", "build.gradle.kts"])
    || (rt == "python" && manifest in ["requirements.txt", "pyproject.toml"])
    || (rt == "rust" && manifest == "Cargo.toml")
    || (rt == "cargo" && manifest == "Cargo.toml")
  }

  lemma ManifestsImply(manifest: string, rt: string)
    ensures rt in InitCfg.ManifestRuntimes(manifest) <==> Implies(manifest, rt)
  {
  }

  /** The diff asks for the same runtimes under their display names, npm apart. */
  ghost predicate Needs(manifest: string, name: string) {
    || (name == "Node" && Implies(manifest, "node"))
    || (name == "Go" && Implies(manifest, "go"))
    || (name == "Java" && Implies(manifest, "java"))
    || (name == "Maven" && Implies(manifest, "maven"))
    || (name == "Gradle" && Implies(manifest, "gradle"))
    || (name == "Python" && Implies(manifest, "python"))
    || (name == "Rust" && Implies(manifest, "rust"))
    || (name == "Cargo" && Implies(manifest, "cargo"))
  }

  lemma ImpliesTable(manifest: string)
    ensures Implies(manifest, "node") <==> manifest == "package.json"
    ensures Implies(manifest, "go") <==> manifest == "go.mod"
    ensures Implies(manifest, "java") <==> manifest in ["pom.xml", "build.gradle", "build.gradle.kts"]
    ensures Implies(manifest, "maven") <==> manifest == "pom.xml"
    ensures Implies(manifest, "gradle") <==> manifest in ["build.gradle", "build.gradle.kts"]
    ensures Implies(manifest, "python") <==> manifest in ["requirements.txt", "pyproject.toml"]
    ensures Implies(manifest, "rust") <==> manifest == "Cargo.toml"
    ensures Implies(manifest, "cargo") <==> manifest == "Cargo.toml"
  {
  }

  lemma ManifestsNeed(manifest: string, name: string)
    ensures name in Diff.ProjectRuntimes(manifest) <==> Needs(manifest, name)
  {
    ImpliesTable(manifest);
    hide Implies;
  }
}
