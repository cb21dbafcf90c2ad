/** The captured snapshot: what the checks and the diff read of one machine. */
module Model {
  import opened Prelude
  import opened Text

  datatype VersionInfo = VersionInfo(version: string, present: bool)

  const ABSENT := VersionInfo("", false)

  datatype Runtimes = Runtimes(
    node: VersionInfo, npm: VersionInfo, pnpm: VersionInfo, yarn: VersionInfo, python: VersionInfo,
    pip: VersionInfo, uv: VersionInfo, java: VersionInfo, maven: VersionInfo, gradle: VersionInfo,
    golang: VersionInfo, rust: VersionInfo, cargo: VersionInfo, docker: VersionInfo)

  /** The display names, in their fixed order. */
  const RUNTIME_NAMES: seq<string> :=
    ["Node", "npm", "pnpm", "Yarn", "Python", "pip", "uv", "Java", "Maven", "Gradle", "Go", "Rust", "Cargo", "Docker"]

  /** The entries in the order of RUNTIME_NAMES. */
  function RuntimeInfos(r: Runtimes): (s: seq<VersionInfo>)
    ensures |s| == |RUNTIME_NAMES|
  {
    [r.node, r.npm, r.pnpm, r.yarn, r.python, r.pip, r.uv, r.java, r.maven, r.gradle, r.golang, r.rust,
        r.cargo, r.docker]
  }

  /** The position of a runtime name, letter case ignored. */
  function RuntimeIndexFrom(name: string, i: nat): (r: Option<nat>)
    requires i <= |RUNTIME_NAMES|
    ensures r.Some? ==> i <= r.value < |RUNTIME_NAMES| && EqualFold(RUNTIME_NAMES[r.value], name)
    ensures r.Some? ==> forall k | i <= k < r.value :: !EqualFold(RUNTIME_NAMES[k], name)
    ensures r.None? ==> forall k | i <= k < |RUNTIME_NAMES| :: !EqualFold(RUNTIME_NAMES[k], name)
    decreases |RUNTIME_NAMES| - i
  {
    if i == |RUNTIME_NAMES| then None
    else if EqualFold(RUNTIME_NAMES[i], name) then Some(i)
    else RuntimeIndexFrom(name, i + 1)
  }

  function LookupRuntime(r: Runtimes, name: string): Option<VersionInfo> {
    match RuntimeIndexFrom(name, 0)
    case None => None
    case Some(i) => Some(RuntimeInfos(r)[i])
  }

  datatype PortInfo = PortInfo(service: string, listening: bool)

  datatype Snapshot = Snapshot(
    hostname: string,
    projectRoot: string,
    projectName: string,
    manifests: seq<string>,
    os: string,
    arch: string,
    gitVersion: string,
    runtimes: Runtimes,
    ports: map<int, PortInfo>,
    missingKeys: seq<string>)
}
