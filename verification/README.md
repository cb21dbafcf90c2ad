# Snagify: verified models of drift checking, fixing and sharing

Snagify captures what a development machine looks like (a *snapshot*), checks it against a
project's requirements, repairs what is safe to repair, compares machines with each other, and
shares a known-good *baseline* over the local network. This project models the parts of it where
several packages have to agree, or where concurrent goroutines have to, and proves what they
guarantee together. `dafny verify dfyconfig.toml` checks everything.

## What is modelled

* **The sharing server** (`ShareServer.dfy`). Handlers, `Close` calls, the TTL goroutine and `Wait`
  are small programs with program counters; an interleaving is any sequence of enabled atomic
  steps, infinite ones included. The object `Server` performs each step on mutable fields and is
  proved to do exactly what the step function says. Every reachable state satisfies the ticket,
  conservation and shutdown invariants; every run refines an atomic budget of `MaxDownloads`
  copies; under a fair scheduler every request is answered, a launched `Close` reaches `done`, every
  `Close` returns, and every run ends with `Wait` returning. `ServerCauses.dfy` says why a `Close`
  exists, that nothing else brings the server down, and which answer each request got.
* **Version requirements** (`VersionReq.dfy`, `Versions.dfy`, with `Decimal.dfy` for the 64-bit
  readers and printers). The scanner behind the regular expressions, the requirement language and
  its order semantics, and the four separate version readers; `Operators.dfy` says what each
  operator means.
* **The init → check → fix → check loop** (`EnvText.dfy`, `EnvClassify.dfy`, `Checks.dfy`,
  `FixPlans.dfy`, `FixApply.dfy`, `FixLoop.dfy`, `InitCfg.dfy`, `EnvCapture.dfy`). `EnvKeys.dfy`
  is about the keys of one text and what appending does to them, `FixSafety.dfy` about what a fix can
  never do, `FixEvery.dfy` settles the round for every config, and `NameLists.dfy` compares the two
  lists of sensitive names. Files are texts; the project
  directory is an object whose `.env` is created, truncated and appended to. Four packages meet
  here: one generates requirements, one checks them and prints a sentence, one parses the sentence
  back into a plan, and one rewrites the file that the check reads again.
  `CheckVerdicts.dfy`, `PlanVerdicts.dfy`, `Generated.dfy`, `FeatureGroups.dfy` and `EnvLines.dfy`
  say outright what each check reports, what each finding plans, what a generated requirement
  accepts, what a feature switch does and how a line is read, in terms of the inputs alone;
  `Spelling.dfy` is about letter case.
* **The diff engine, team summaries and baselines** (`Diff.dfy`, `Team.dfy`, `TeamInvariance.dfy`,
  `TeamCounts.dfy`, `Baseline.dfy`, over `Model.dfy`, `Reports.dfy` and `Sorting.dfy`).
  `DiffSides.dfy`, `TeamTable.dfy`, `DriftReport.dfy` and `RuntimeNames.dfy` tell every entry, cell
  and report item by the two machines they are about: whose value stands where, and who is blamed.
* **The mDNS TXT records** of a share (`Txt.dfy`).
* **Inputs on which a promise fails** (`Witnesses.dfy`).

Texts are sequences of ASCII characters with Go's `strings` and `strconv` operations written out in
`Text.dfy` and `Decimal.dfy`. Go's random map order is a nondeterministic choice followed by the
sort the program makes, so a result that is proved equal to a listing cannot depend on it.

## What the proofs found

Some promises fail on inputs that can be named. For each, the code is modelled as it is, a lemma
shows the failure on such an input, and another says exactly when the promise holds.

* `envFromExample` strips `export ` and then writes the rest, which the reader strips again, so
  `export export A=1` and `export #A=1` lose their key (`Witnesses.ExportedTwice`,
  `Witnesses.ExportedComment`). The copy declares the example's keys if and only if no line is
  stripped twice (`EnvText.CopyKeepsKeysExactly`, `EnvText.CopyLineKeepsMeaning`).
* Without a `.env`, a required and a recommended group each plan a create action, and the second
  truncates what the first appended: a required key that the copied example does not declare is lost
  (`Witnesses.RequiredKeyTruncated`, `FixLoop.LostRequiredKey`). With a `.env` whose last line is
  unfinished, the first appended key merges into that line (`Witnesses.MergedIntoOpenLine`), unless
  the line is white space or an export with nothing behind it. `FixLoop.FixConvergesExactly` gives
  the exact condition on the files for well-formed missing keys, `FixEvery.FixSuffices` for every
  config, and `FixEvery.SecondRoundExactly` says what a second round leaves;
  `FixEvery.InitThenFixExactly` says exactly when a config that init generated is satisfied after
  one fix. What a fix never does, whatever was reported, is damage a `.env` that is already there
  (`FixSafety.PlanOnlyGrows`).
* The planner reads back the keys the env check printed if and only if every key is trimmed,
  nonempty and free of commas and of `: ` (`FixPlans.SentenceRoundTrip`), so a key with a comma is
  not fixed (`Witnesses.CommaSplitsKey`, `Witnesses.CommaNeverFixed`,
  `FixEvery.FixSufficesForWellFormed`).
* The major `-9223372036854775808` passes `majorOf` but is out of range for the requirement parser,
  so the requirement `init` generates for it cannot be verified (`Witnesses.SmallestMajor`); it is
  the only such major (`Versions.GeneratedRequirementAcceptsItsVersion`,
  `InitCfg.InitThenCheckRuntimes`).
* The order of comparators never changes `OK` but does change `Parsed`
  (`VersionReq.ParsedOrderWitness`): it cannot change it if and only if the comparators do not hold
  both a failing and an unreadable one (`VersionReq.OkIgnoresComparatorOrder`,
  `VersionReq.ParsedDependsOnOrder`).
* A blocker count is described as the number of machines that share the blocker. The two env
  blockers of one machine normalize to the same text, so a machine that lacks a key of the baseline
  while the baseline lacks one of its keys is counted twice (`Witnesses.CountedTwice`); that is the
  only excess (`TeamCounts.CountsAreMachines`).
* The diff mirrors when its two sides are exchanged, down to the blocker texts, if and only if the
  services of every disagreeing port agree or one is blank, and, unless both machines bear one name,
  no required runtime is absent on one side and prints "missing" on the other
  (`Diff.DiffMirrorsExactly`). Both conditions can fail (`Witnesses.LabelsDisagree`,
  `Witnesses.BothReadMissing`); in the second case the two directions accuse different machines.
* `safeDefault` and the classifier use different lists of sensitive names: the default of
  `DATABASE_URL` is copied although the classifier calls it sensitive
  (`Witnesses.DatabaseUrlIsCopied`). A sensitive default is copied if and only if its key holds one
  of the four terms that only the classifier knows, and no secret term
  (`NameLists.SensitiveDefaultSurvivesExactly`, `NameLists.SensitiveIsCopiedExactly`); where the two
  lists agree is settled by `NameLists.ListsAgreeExactly`.

## Model

The table starts with the theorems, package by package, and the inputs on which a promise fails
(`Witnesses` and their neighbours). The rows from `ShareServer.Configure` on are what the theorems
stand on: invariants kept by one step, laws of one function, and the methods whose loops or field
updates are proved to compute the functions the theorems speak about.

| member | source | states |
|---|---|---|
| ShareServer.AlwaysInv | internal/share/server.go:129-218 | Safety: every state of every interleaving, however long, satisfies the ticket, handler, conservation, once and launch invariants. |
| ShareServer.OnlyAuthorisedServed | internal/share/server.go:131-157 | In every reachable state, whoever has or was promised a copy sent a GET for the exact path, with no declared body and the right code, and holds a ticket within the limit. |
| ShareServer.RunRefinesBudget | internal/share/server.go:129-161 | Over whole runs the budget grants at most MaxDownloads and refuses only when spent, and each finished response is the one its grant or refusal entitles it to. |
| ShareServer.CopiesThenRefusals | internal/share/server.go:149-157 | However requests race, each issued ticket has one holder, and the response that request finishes with is a copy for the first MaxDownloads tickets and a refusal ever after. |
| ShareServer.ShutdownProtocol | internal/share/server.go:189-218 | done is closed at most once and only after Shutdown and the listener close; Wait returns only after it; while it is open and the TTL has fired or a last ticket has finished, a Close is under way. |
| ShareServer.LaunchedCloseReachesDone | internal/share/server.go:210-218 | Liveness: under a fair scheduler, once any Close is launched, done is closed. |
| ShareServer.SpentBudgetShutsDown | internal/share/server.go:149-160 | Once MaxDownloads tickets are out, a fair scheduler brings the server down, whatever the timer does. |
| ShareServer.EveryFairRunEnds | internal/share/server.go:189-218 | Every fair run ends: whatever requests, Close calls and timers do, done is closed once, the listener is closed, and Wait returns. |
| ShareServer.EveryCloseReturns | internal/share/server.go:208-218 | Liveness of Close: under a fair scheduler every call returns and stays returned, the ones that wait for another to leave the once included. |
| ShareServer.RequestIsAnswered | internal/share/server.go:129-161 | Liveness of a request: a scheduler fair to its handler brings it to its response, whichever tickets the others take. |
| ShareServer.LastCopyShutsDown | internal/share/server.go:158-160 | Once the handler of the last ticket has finished, a fair scheduler brings the server down. |
| ShareServer.FairBehaviourExists | internal/share/server.go:129-218 | For every valid configuration there is an interleaving fair to every goroutine that hands out all its tickets, so the liveness statements are about runs that exist. |
| ServerCauses.EveryCloseHasItsCause | internal/share/server.go:149-218 | In every reachable state each Close has its cause: a handler that finished with the last ticket or one past it, the fired timer, or a caller; no handler and no timer launches two. |
| ServerCauses.ClosesExactly | internal/share/server.go:149-198 | Exactly which Closes exist: handler i has launched one if and only if it finished with a ticket at or past MaxDownloads, the timer if and only if it fired, and a caller if and only if one called Close. |
| ServerCauses.NothingElseCloses | internal/share/server.go:129-218 | Over whole runs: while nobody called Close, the timer is armed and no handler finished with the last ticket, no Close exists and the server is up, whatever requests it turned away. |
| ServerCauses.UpWhileCopiesLast | internal/share/server.go:149-198 | In particular the server stays up as long as fewer tickets are out than there are copies, the timer is armed and nobody closes it. |
| ServerCauses.AnswersAreDeserved | internal/share/server.go:129-187 | Every finished request got the answer its method, path, body, code and ticket deserve: 404, 405, 403, the address, a copy within the budget, or 410 past it. |
| FixEvery.FixSuffices | internal/check/check.go:132-188 | For every config, example and env file: one round makes the check clean if and only if every wanted key can be a key at all and is declared by the text the round appends to, or read from a line it appends. |
| FixEvery.FixSufficesForWellFormed | internal/check/check.go:132-188 | For every config, from an env file that ends its lines or from nothing: one round suffices if and only if every missing key is well-formed. |
| FixEvery.SecondRoundExactly | internal/fixplan/apply.go:33-109 | For every config, example and env file: a second round makes the check clean if and only if every key still missing after the first is well-formed. |
| FixLoop.FixConvergesExactly | internal/check/check.go:132-188 | When the missing keys are well-formed, the next check reports no env item if and only if, beforehand: nothing is missing; or the env file ends in a fresh line (white space, or an export with nothing behind it) or its first missing key is wanted twice; or there is no env file, and no example, or only one group wanted, or every required key stands in the copied example or among the recommended ones. |
| FixLoop.TwoRoundsAlwaysConverge | internal/fixplan/apply.go:33-109 | Whatever one round loses, a second round makes the env check clean when the missing keys are well-formed. |
| FixSafety.PlanOnlyGrows | internal/fixplan/fixplan.go:41-103 | A fix never damages an existing env file: whatever items a report holds, applying its safe plan keeps the text in front and every declared key declared. |
| FixLoop.FixKeepsExistingKeys | internal/fixplan/apply.go:86-109 | For every config, report and env file: a round keeps the file's text as a prefix and every key it declares. |
| FixPlans.SafeLaneIsHarmless | internal/fixplan/apply.go:30-32 | Whatever a report holds, every safe action is the create, an append of listable keys, or one image pull: never an install, a version switch or a service start. |
| FixApply.ConsentIsRespected | internal/fixplan/apply.go:111-133 | Of any plan's safe actions, a run without --yes holds back exactly those flagged as needing confirmation, and says so. |
| FixLoop.CleanIsStable | internal/fixplan/fixplan.go:75-103 | After a clean check a second plan has no env action, and a further round leaves the file alone. |
| FixLoop.RoundIsEnvActions | internal/fixplan/fixplan.go:41-103 | Whatever other findings stand around them, only the env items decide what a round does to the env file. |
| FixEvery.InitThenFixExactly | internal/initcfg/initcfg.go:54-97 | For every example: after init and one fix from no env file the generated config is satisfied if and only if each wanted key is declared by the copied example, or an appended key reads as it. |
| InitCfg.InitThenFixConverges | internal/initcfg/initcfg.go:54-97 | Init, then one fix from no env file: for every example whose lines are not stripped twice, whatever its keys look like, the generated config is satisfied. |
| InitCfg.InitThenCheckRuntimes | internal/initcfg/initcfg.go:105-143 | Checking a machine against the config generated from it reports exactly the absent runtimes, all critical, if and only if no present version has the smallest 64-bit major. |
| Generated.RequirementMeans | internal/initcfg/initcfg.go:105-143 | A generated requirement accepts, of all texts that hold a version, exactly those whose first component is at least the major of the machine it was generated on. |
| Generated.TeammateVerdict | internal/initcfg/initcfg.go:105-143 | A teammate's machine checked against a config generated elsewhere: critical if and only if the runtime is absent or its first component is smaller, a warning if and only if its version is unreadable. |
| FixPlans.SentenceRoundTrip | internal/check/check.go:158-187 | The planner reads back exactly the keys the env check printed, in order, if and only if every key is trimmed, nonempty and free of commas and ": ". |
| CheckVerdicts.RuntimeVerdict | internal/check/check.go:69-128 | For any config and snapshot: a configured runtime has a critical item if and only if it is absent, or more than presence is asked for and the first comparator that does not hold fails; a warning if and only if it is unknown, or its version or that comparator is unreadable. |
| CheckVerdicts.RuntimeItemsExactly | internal/check/check.go:69-128 | Every item of the runtime check and no other, with its found and expected texts and its blocker spelled out. |
| CheckVerdicts.EnvVerdict | internal/check/check.go:130-190 | The env check is critical if and only if a required key is not declared, and warns if and only if a recommended one is not. |
| CheckVerdicts.EnvItemsExactly | internal/check/check.go:130-198 | Every item of the env check and no other: its severity, its count and its sentence that names the missing keys. |
| CheckVerdicts.SetupFailsExactly | internal/check/check.go:33-66 | The two checks together fail if and only if a required key is not declared or a configured runtime is for sure not what was asked. |
| PlanVerdicts.RuntimePlan | internal/fixplan/fixplan.go:105-213 | A runtime finding plans one guided action: an install when what was found says missing, otherwise a switch from the found to the expected version. |
| PlanVerdicts.DockerPlan | internal/fixplan/fixplan.go:127-150 | A docker finding plans an install of docker, a note that a compose file is missing, or one pull of exactly the named image that needs confirmation. |
| EnvText.CopyKeepsKeysExactly | internal/fixplan/apply.go:145-182 | The copy declares the example's key sequence if and only if no line's key is stripped twice. |
| EnvText.CopyLineKeepsMeaning | internal/fixplan/apply.go:160-180 | A copied line reads as the same pair with secret values blanked, or the same comment or blank, if and only if its key is not stripped twice. |
| EnvText.CopyMeansRedacted | internal/fixplan/apply.go:145-182 | Line by line the copy keeps every default of a name that is not secret; blank and comment lines survive verbatim. |
| EnvText.CopyNeverHoldsSecrets | internal/fixplan/apply.go:145-149 | Whatever the example holds, no secret-named key of the copy has a value. |
| NameLists.SensitiveDefaultSurvivesExactly | internal/fixplan/apply.go:150-200 | Line by line of any example: a nonblank default of a key the classifier calls sensitive survives the copy if and only if the line is not stripped twice, and the key holds DATABASE_URL, DB_URL, ACCOUNT_ID or CLIENT_ID and no secret term. |
| NameLists.SensitiveIsCopiedExactly | internal/initcfg/envclassify.go:130-134 | On names: some default of a sensitive name is copied if and only if the name holds one of those four terms and is no secret name; then every default is. |
| NameLists.ListsAgreeExactly | internal/fixplan/apply.go:190-194 | The two lists agree on a name if and only if it holds a term of both, or terms of both remainders, or of neither. |
| NameLists.CopyHoldsSensitiveExactly | internal/fixplan/apply.go:145-200 | Whatever line of whatever copy holds a value, its key is sensitive to the classifier if and only if it holds one of the four terms. |
| EnvCapture.CreatedFileMissesNothing | internal/capture/envfiles.go:20-36 | A snapshot taken right after the env file was created from the example reports no missing key if and only if every example key stands on some line that is not stripped twice. |
| EnvKeys.AppendingKeepsKeys | internal/capture/envfiles.go:47-72 | Appending any text to any env file, its last line finished or not, keeps every key it declares. |
| EnvKeys.FreshLineExactly | internal/fixplan/apply.go:96-109 | Behind a line without =, a readable key reads as itself if and only if the line is white space, or an export with nothing behind it. |
| EnvKeys.EqualsFixesKey | internal/capture/envfiles.go:54-71 | A line that holds = reads as the same key, or none, whatever is appended to it. |
| EnvClassify.ClassFromText | internal/initcfg/envclassify.go:37-183 | From the text alone: a key is in the list of a class if and only if some line gives it that class, by the hint of an earlier comment with only hint-free comments between or, when no hint reaches it, by the switches of the whole file, its default and its name. |
| EnvClassify.RequiredExactly | internal/initcfg/envclassify.go:143-183 | A key is required exactly when hinted so, or unhinted, in no disabled group, blank and sensitive-named. |
| EnvClassify.HintReachesExactly | internal/initcfg/envclassify.go:44-94 | A hint is pending at a line exactly when an earlier comment gave it and only hint-free comments stand between. |
| EnvClassify.DisabledExactly | internal/initcfg/envclassify.go:106-128 | A key is in a disabled group exactly when some STEM_ENABLED or STEM_ENABLE line holds 0, or spells false in any letter case, and the key starts with STEM_ (letter case ignored). |
| EnvClassify.ClassIgnoresOrder | internal/initcfg/envclassify.go:96-123 | A line's class does not depend on the order of the file's lines, so a switch may stand before or after its group. |
| FeatureGroups.GroupFollowsSwitch | internal/initcfg/envclassify.go:37-183 | Through the whole classifier: the blank secret of a group is optional if and only if its switch's value is 0 or spells false in any letter case, and required otherwise. |
| EnvClassify.SplitConservesExampleKeys | internal/initcfg/initcfg.go:60-70 | The three lists hold exactly the keys the reader finds in the example, none lost and none repeated. |
| VersionReq.NumTokenIsLeftmostLongest | internal/verreq/verreq.go:25-25 | The scanner finds the leftmost dotted number and no longer one starts there; it finds nothing only in digit-free text. |
| VersionReq.VersionTextRoundTrip | internal/verreq/verreq.go:96-125 | Printing any nonempty list of naturals below 2^63, prefixing any operator, splitting and parsing returns the operator and the list. |
| VersionReq.CompareNIsSign | internal/verreq/verreq.go:127-147 | The comparison is the lexicographic sign on zero-padded versions cut to n components, in both directions. |
| VersionReq.CheckOkIsConjunction | internal/verreq/verreq.go:44-64 | OK holds exactly when the version is readable and every comparator is readable and holds. |
| VersionReq.AcceptedVersionsAreAnInterval | internal/verreq/verreq.go:55-93 | The versions any comparator list accepts form an interval of the version order. |
| VersionReq.OperatorsComplement | internal/verreq/verreq.go:76-93 | On readable version text, >= is the complement of < and <= is the complement of >. |
| VersionReq.OkIgnoresComparatorOrder | internal/verreq/verreq.go:50-64 | Writing the comparators in any other order never changes OK. |
| VersionReq.ParsedDependsOnOrder | internal/verreq/verreq.go:56-61 | For any found text and comparator words: no reordering changes Parsed, if and only if the found version is unreadable or the comparators do not hold both a failing and an unreadable one. |
| VersionReq.AppendingDotZeroIsInvisible | internal/verreq/verreq.go:127-147 | Appending .0 to the found text changes neither OK nor Parsed of any requirement, if and only if the text holds a digit. |
| Operators.OperatorsMean | internal/verreq/verreq.go:69-105 | For every found version and printed wanted version, each literal operator holds exactly by the order of the two, cut to the wanted components. |
| Operators.RequirementMeans | internal/verreq/verreq.go:44-93 | A blank-separated list of comparators accepts a printed version exactly when each comparator is satisfied. |
| Versions.ExtractIsLeftmostLongest | internal/capture/version.go:7-15 | The captured version is the leftmost, then longest, dotted token of two to four components; without one the raw text stays. |
| Versions.VersionReadersAgree | internal/capture/version.go:10-15 | On every captured version the diff's reader and the requirement parser consume the text whole and read the same components. |
| Versions.BareMajorAccepts | internal/verreq/verreq.go:69-93 | A bare major accepts exactly the versions with that first component. |
| Versions.MajorMismatchIsBareRequirement | internal/diff/version.go:25-31 | On captured versions the diff calls a major mismatch exactly when the bare requirement of one's major rejects the other, if and only if the checked version's own major is readable. |
| Versions.GeneratedRequirementAcceptsItsVersion | internal/initcfg/initcfg.go:121-143 | The generated requirement accepts the version it came from, and is read as verified, unless the major is the smallest 64-bit integer; then it is neither. |
| Diff.DiffMirrorsExactly | internal/diff/runtimes.go:70-89 | Comparing (b, a) gives the very entries of (a, b), context and blocker texts included, with sides and names exchanged and the two env entries in the other order, if and only if every disagreeing port names one service or leaves it blank on a side, and the machine names are equal or no required runtime is absent on one side and reads "missing" on the other. |
| Diff.ContextMirrors | internal/diff/runtimes.go:73-89 | Upgrading one runtime finding and mirroring it commute, machine named in the blocker included, if and only if the names are equal or the finding does not read "missing" on both sides. |
| Diff.NoDriftExactly | internal/diff/diff.go:83-141 | The comparison is clean exactly when git versions, every runtime's presence and version, every port probed on both sides, and the missing-key sets agree. |
| Diff.FullDiffVerdict | internal/diff/runtimes.go:70-89 | The verdict of the full comparison, context included, is the same exact condition. |
| Diff.NoDriftIsEquivalence | internal/diff/diff.go:83-107 | On one set of probed ports, having no drift is reflexive, symmetric and transitive. |
| Diff.ContextIsBenign | internal/diff/runtimes.go:73-89 | Applying the context twice equals applying it once; it only raises severities and never changes the verdict. |
| DiffSides.FullDiffTells | internal/diff/diff.go:94-148 | Every entry of the full comparison and no other, side by side: which machine's version, state or key stands on which side, its severity, and the blocker text with the machine it names. |
| DiffSides.LackIsBlamedRightly | internal/diff/runtimes.go:38-89 | Where exactly one machine has a runtime, and no version reads "missing", the blocker accuses the machine without it if and only if a manifest needs the runtime. |
| DiffSides.EntriesInOrder | internal/diff/diff.go:94-107 | The entries stand in the order of environment, runtimes, ports and env keys, ports by number, each place at most once. |
| Team.SummaryProperties | internal/team/team.go:44-135 | The counts sum to all per-machine blockers, the ranking is strictly ordered with distinct texts, and a machine is OK exactly when it has no drift from the baseline. |
| TeamInvariance.SummaryDependsOnlyOnSnapshots | internal/team/team.go:44-112 | Renaming machines or listing them in another order changes neither the columns nor the ranking. |
| TeamInvariance.NameDropsOut | internal/team/team.go:137-146 | A machine's normalized blockers and columns do not depend on what it is called. |
| TeamInvariance.FullDiffDistinct | internal/diff/diff.go:70-80 | The nonempty blockers of one comparison are pairwise distinct, so removing repeats loses none. |
| TeamCounts.CountsAreMachines | internal/team/team.go:29-33 | Every ranked count is the number of machines that share the blocker; only the env text exceeds it, by the number of two-sided machines. |
| Team.ColumnsAreTheUnion | internal/team/team.go:57-60 | A runtime is a column exactly when it differs on some machine. |
| TeamTable.RuntimeCell | internal/team/team.go:57-121 | A runtime's cell is ok exactly where the machine agrees with the baseline; otherwise it shows the machine's own version, "missing" or a question mark, with a cross. |
| TeamTable.EnvAndPortsCells | internal/team/team.go:61-112 | The Env cell is ok exactly where the same keys are missing, the Ports cell exactly where every port probed on both agrees; otherwise they hold a cross. |
| TeamTable.MachineBlockersExactly | internal/team/team.go:48-86 | A machine's blockers are exactly the nonempty texts of its findings against the baseline. |
| Sorting.ListingUnique | internal/team/team.go:87-92 | A sorted listing of a set is unique, so no result depends on map iteration order. |
| Baseline.StatusExactly | internal/baseline/baseline.go:59-65 | The status and its text are "differs" exactly on such critical drift and "matches" exactly when nothing at all, OS and architecture included, differs. |
| Baseline.CriticalExactly | internal/baseline/baseline.go:59-60 | The report is critical exactly when a major version differs, a required runtime is on one side only or reads "missing" on one side and another version on the other, or the missing keys differ. |
| DriftReport.ReportItemsExactly | internal/baseline/baseline.go:38-78 | Every item of a drift report and no other: each finding with the baseline's value as found, the machine's as expected, and its severity carried over. |
| DriftReport.StatusSpelledOut | internal/baseline/baseline.go:55-66 | Which of the three status texts a user reads, by what differs between the two machines. |
| Baseline.SanitizingIsInvisible | internal/baseline/baseline.go:19-34 | Sanitizing either side changes neither the reported items nor the status, and a machine matches its own baseline. |
| Decimal.ParseFormat | internal/lan/advertise.go:77-77 | Printing any signed 64-bit integer in decimal and reading it back returns it. |
| Txt.AnyOrderReadsBack | internal/lan/advertise.go:68-79 | Reading the printed records, in any order, returns the metadata with port zero, for all texts and every signed 64-bit expiry. |
| Txt.PrintedAlikeMeansSame | internal/lan/advertise.go:70-79 | Two shares print alike exactly when they agree on everything but the port. |
| Txt.StrangersAreIgnored | internal/lan/advertise.go:166-171 | A record that is no pair, or carries a key of its own, changes nothing wherever it stands. |
| FixLoop.LostRequiredKey | internal/fixplan/apply.go:64-109 | The failure: without an env file, a required key outside the example is lost when a recommended key is missing too. |
| TeamCounts.EnvTextCountedTwice | internal/team/team.go:29-33 | The failure: a single machine that lacks a key of the baseline and has one the baseline lacks is counted twice. |
| VersionReq.ParsedOrderWitness | internal/verreq/verreq.go:56-61 | For found 5 the order of the comparators >=7 and x does change Parsed. |
| Witnesses.ExportedTwice | internal/fixplan/apply.go:160-180 | `export export A=1` declares `export A`; its copy declares `A`. |
| Witnesses.ExportedComment | internal/fixplan/apply.go:160-180 | `export #A=1` declares `#A`; its copy declares nothing. |
| Witnesses.SmallestMajor | internal/initcfg/initcfg.go:121-143 | The printed smallest 64-bit integer is a major to init, and unreadable in the requirement init writes for it. |
| Witnesses.MergedIntoOpenLine | internal/fixplan/apply.go:86-109 | A missing `B` behind the unfinished line `A` is still missing after one fix. |
| Witnesses.RequiredKeyTruncated | internal/fixplan/apply.go:64-109 | A required `A` and a recommended `B` with an empty example and no env file: one fix does not suffice. |
| Witnesses.CommaSplitsKey | internal/fixplan/fixplan.go:217-232 | The key `A,B` is not read back from its own sentence. |
| Witnesses.CommaNeverFixed | internal/fixplan/fixplan.go:217-232 | A config that requires `A,B` is not satisfied by one fix. |
| Witnesses.LabelsDisagree | internal/diff/ports.go:11-60 | Two service names for one disagreeing port: the comparison the other way round is not the mirrored one. |
| Witnesses.BothReadMissing | internal/diff/runtimes.go:73-89 | A required runtime whose version text is "missing", absent on the other machine: the mirror breaks, and the two directions hold the blockers that accuse the one machine and the other. |
| Witnesses.CountedTwice | internal/team/team.go:83-86 | One machine with a key the baseline lacks, and lacking one of its keys, makes the env text count two. |
| Witnesses.DatabaseUrlIsCopied | internal/fixplan/apply.go:186-200 | `DATABASE_URL` is sensitive to the classifier, yet its default is copied. |
| ShareServer.Configure | internal/share/server.go:51-88 | Starting succeeds exactly for a nonempty baseline of at most 1 MiB when the token, the listener and, unless plain HTTP is asked for, the certificate come through; zero or negative options fall back to ten minutes and 20 downloads, so a running server always has positive limits and a path no other route shadows. |
| ShareServer.ConstantTimeEqual | internal/share/server.go:239-248 | The accumulating XOR loop, which never stops early on equal lengths, decides exactly equality of the two codes. |
| ShareServer.GateAnswers | internal/share/server.go:118-148 | For each possible answer before the ticket, exactly the requests that get it; only an authorised request passes. |
| ShareServer.TicketsKept | internal/share/server.go:149-149 | Every step keeps the issued tickets exactly the numbers 1..downloads, each held by one handler. |
| ShareServer.CopiesKept | internal/share/server.go:149-157 | Every step keeps written plus granted-but-unwritten copies equal to min(downloads, MaxDownloads). |
| ShareServer.OnceKept | internal/share/server.go:210-218 | Every step of every concurrent Close keeps the once discipline: one caller inside, and the shutdown, listener and done flags follow its position. |
| ShareServer.LaunchesKept | internal/share/server.go:150-160 | Every step keeps that an expired TTL, every refusal and the last copy have launched a Close. |
| ShareServer.StepRefinesBudget | internal/share/server.go:149-157 | Refinement: taking a ticket is one atomic Take on a budget of MaxDownloads copies, and every other step is invisible to the budget. |
| ShareServer.RankStep | internal/share/server.go:210-218 | A ranking of the shutdown never grows, reaches zero exactly when done is closed, and drops with each step of the Close whose turn it is, which is always able to move. |
| ShareServer.Server.Accept | internal/share/server.go:129-129 | A new request starts a handler and changes nothing else. |
| ShareServer.Server.RunGates | internal/share/server.go:118-148 | Both routes' checks on the mutable object perform exactly the gate step. |
| ShareServer.Server.AddDownload | internal/share/server.go:149-149 | The atomic increment performs exactly the ticket step and keeps every invariant. |
| ShareServer.Server.Respond | internal/share/server.go:150-157 | Writing the response performs exactly the write step. |
| ShareServer.Server.Conclude | internal/share/server.go:150-160 | The handler's tail performs exactly the finish step, launching a Close at the last copy and at every refusal. |
| ShareServer.Server.TtlSelect | internal/share/server.go:189-195 | The TTL goroutine's select performs exactly one of its two branches. |
| ShareServer.Server.CloseStep | internal/share/server.go:210-218 | One step of a ready Close performs an enabled action of that Close and nothing else. |
| ShareServer.Server.CallCloseFromOutside | internal/share/server.go:208-210 | A Close from outside is launched and changes nothing else. |
| ShareServer.Server.constructor | internal/share/server.go:74-84 | A started server is in the initial state, which satisfies the invariants. |
| Decimal.PairingCode | internal/share/server.go:250-258 | A pairing code is six digits that spell the drawn number, so distinct draws give distinct codes. |
| VersionReq.ParseVersion | internal/verreq/verreq.go:107-125 | The loop over the token's parts returns the parts before the first unreadable one, or nothing. |
| VersionReq.SplitOpOfVersion | internal/verreq/verreq.go:96-105 | Any operator in front of a version text is split off again, with the text unchanged. |
| VersionReq.CompareComponents | internal/verreq/verreq.go:129-147 | The comparing loop returns the specified comparison. |
| VersionReq.EvalOfNumbers | internal/verreq/verreq.go:69-93 | A printed comparator asks exactly about the sign of that comparison with its numbers. |
| VersionReq.CheckRequirement | internal/verreq/verreq.go:44-64 | The comparator loop with its early returns computes the specified answer. |
| VersionReq.CheckStopsAt | internal/verreq/verreq.go:50-64 | The answer is settled by the first comparator that is unreadable or fails, which decides Parsed. |
| Versions.SplitComponents | internal/diff/version.go:9-20 | The splitting loop returns the components before the first unreadable part. |
| EnvText.ReadEnvKeys | internal/capture/envfiles.go:47-72 | The scanner loop returns the keys of the text's pair lines in order, and whether there is a file. |
| EnvCapture.CaptureMissing | internal/capture/envfiles.go:16-36 | The loop collects, in example order, exactly the example keys the env file does not declare: all of them without an env file, none without an example. |
| EnvCapture.StrippableNeverSafe | internal/fixplan/apply.go:160-180 | A key that looks like a comment or an export is stripped twice on every line it stands on. |
| EnvCapture.RestrippedGivesShorter | internal/fixplan/apply.go:160-180 | A key that is stripped twice comes out of the copy strictly shorter, if at all. |
| EnvText.EnvFromExample | internal/fixplan/apply.go:150-182 | The builder loop writes the copied text line by line. |
| EnvText.SafeDefaultOf | internal/fixplan/apply.go:186-200 | The search through the secret terms blanks exactly the values of secret-named keys. |
| EnvText.WrittenPairRead | internal/capture/envfiles.go:54-71 | A pair written at the start of a line reads as itself exactly when its key does not look like a comment or an export. |
| EnvClassify.CollectRawLines | internal/initcfg/envclassify.go:44-94 | The scanner loop with its pending-hint state yields the specified raw lines. |
| EnvClassify.CollectDisabledPrefixes | internal/initcfg/envclassify.go:108-123 | The map-filling loop collects the specified prefixes. |
| EnvClassify.ClassifyEnvExample | internal/initcfg/envclassify.go:37-104 | The three passes together compute the specified classification. |
| EnvClassify.EntryOfLine | internal/initcfg/envclassify.go:44-104 | The entry of a pair line stands as far down as there are keys before it, and has exactly the class the text gives that line. |
| EnvClassify.SplitByClass | internal/initcfg/initcfg.go:60-70 | The splitting loop fills the three lists in file order. |
| EnvClassify.EntriesKeepKeys | internal/initcfg/envclassify.go:44-104 | The classifier and the key reader see the same keys in the same order. |
| EnvClassify.ListsConserveKeys | internal/initcfg/initcfg.go:60-70 | The three lists together hold every key as often as the entries do. |
| Checks.CheckEnv | internal/check/check.go:132-188 | The env check appends exactly the grouped items for the missing required and recommended keys. |
| Checks.EnvCleanExactly | internal/check/check.go:132-188 | The env check reports nothing exactly when every required and recommended key is declared. |
| Checks.CheckRuntime | internal/check/check.go:80-127 | One configured runtime appends exactly the finding its state calls for. |
| Checks.CheckRuntimes | internal/check/check.go:69-128 | The runtime check visits the configured names in sorted order, whatever the map's order, and skips ignored ones. |
| Reports.Report.Add | internal/report/report.go:50-50 | An item is appended and nothing else changes. |
| Reports.Report.BySeverity | internal/report/report.go:61-69 | The filtering loop returns the items of one severity in order. |
| Reports.Report.Failed | internal/report/report.go:72-79 | A report fails exactly when it holds a critical item. |
| Reports.CollectBlockers | internal/report/report.go:82-92 | The seen-map loop returns each nonempty blocker once, in order of first appearance. |
| Reports.SeveritiesPartition | internal/report/report.go:53-69 | The three severity lists together hold every item as often as the report does. |
| Reports.SeverityFilesRightly | internal/report/report.go:61-69 | An item stands in a severity list exactly when it is in the report with that severity. |
| FixPlans.ExtractKeys | internal/fixplan/fixplan.go:217-232 | The splitting loop returns the nonblank trimmed parts after the last ": ". |
| FixPlans.FixPlan.AddEnvFixes | internal/fixplan/fixplan.go:75-103 | The create and append actions are appended to the plan's lanes as specified, descriptions and flags included. |
| FixPlans.FixPlan.AddActions | internal/fixplan/fixplan.go:54-213 | The dispatch on a finding's category appends exactly that finding's actions, with their commands, descriptions and flags. |
| FixPlans.Build | internal/fixplan/fixplan.go:41-52 | The plan holds the actions of all critical and warning items in report order. |
| FixPlans.OtherItemsLeaveEnvAlone | internal/fixplan/fixplan.go:54-73 | No item outside the Env category ever plans a safe action on the env file. |
| FixPlans.EnvItemActions | internal/fixplan/fixplan.go:75-103 | A missing-keys item plans a create when only the example exists, and an append of exactly the keys its sentence yields when there are any. |
| FixPlans.PlanFlags | internal/fixplan/fixplan.go:54-155 | Whatever a report holds, exactly the actions of the safe lane are flagged safe, and exactly its image pulls are flagged as needing confirmation. |
| FixApply.Workspace.CreateEnvFromExample | internal/fixplan/apply.go:64-84 | The env file becomes the copied example, replacing what was there; a dry run, an unreadable example or a file that cannot be opened changes nothing and says so. |
| FixApply.Workspace.AppendMissingKeys | internal/fixplan/apply.go:86-109 | The env file gains one blank assignment per key at its end, and is created if absent; a dry run or a file that cannot be opened changes nothing and says so. |
| FixApply.Workspace.DockerPull | internal/fixplan/apply.go:111-133 | A pull is skipped without confirmation, stops at the first failure, and never touches the env file. |
| FixApply.Workspace.ApplySafe | internal/fixplan/apply.go:33-62 | The loop applies the safe actions in order to the env file and merges their outcomes; without writing, the file stays as it is. |
| FixApply.EnvActionsSuffice | internal/fixplan/apply.go:40-53 | Safe actions on other things can be dropped without changing what happens to the env file. |
| FixApply.EnvOutcomeIsHonest | internal/fixplan/apply.go:64-109 | An env action reports itself applied exactly when it wrote the file; otherwise it was a dry run or reports one error. |
| FixLoop.FixSafe | internal/fixplan/apply.go:33-62 | Checking, planning and applying on the mutable directory computes the specified round, or leaves the file alone when it may not or cannot write. |
| FixLoop.RoundText | internal/fixplan/apply.go:64-109 | The text one round leaves, for every config, example and env file: what a create truncates and what the appends add of the keys the sentences yield. |
| InitCfg.DetectRuntimes | internal/initcfg/initcfg.go:105-119 | The map-filling loops give one requirement per runtime the manifests imply, and docker by its marker files. |
| InitCfg.GenerateEnvSection | internal/initcfg/initcfg.go:54-97 | The generated env section is the required and recommended lists of the classified example. |
| Diff.DiffResult.constructor | internal/diff/diff.go:94-107 | A comparison holds the environment, runtime, port and env-key entries in that order. |
| Diff.DiffResult.ApplyProjectContext | internal/diff/runtimes.go:73-89 | The in-place pass upgrades exactly the missing required runtimes and leaves every other entry alone. |
| Diff.DiffResult.Blockers | internal/diff/diff.go:70-80 | The blockers are the entries' nonempty texts, each once, in order. |
| Diff.DiffResult.BySeverity | internal/diff/diff.go:59-67 | The filtering loop returns the entries of one severity in order. |
| Diff.DiffResult.AnyDifference | internal/diff/diff.go:83-90 | The verdict is whether any entry is more than informational. |
| Diff.CompareRuntimes | internal/diff/runtimes.go:23-36 | The runtime loop compares every runtime once, in display order. |
| Diff.CollectRequired | internal/diff/runtimes.go:91-101 | The map-filling loops gather the runtimes either side's manifests require. |
| Diff.ComparePorts | internal/diff/ports.go:11-60 | The ports are visited in ascending order, whatever the maps' order, and reported when both sides probed them and disagree. |
| Diff.SubtractKeys | internal/diff/envfiles.go:41-53 | The map-and-slice loops keep, in order, exactly the keys of the first list that are not in the second. |
| Model.RuntimeIndexFrom | internal/model/model.go:117-124 | The lookup finds the first runtime whose name matches with letter case ignored, no earlier one matching, and none only if no name matches. |
| Sorting.SortElements | internal/diff/ports.go:46-60 | Gathering the elements in any order and sorting them yields that listing. |
| Team.CollectCells | internal/team/team.go:53-74 | After one machine's entries exactly the columns they feed have a cell, with the text of a feeding entry, and the runtime columns are those with a runtime entry. |
| Team.CompareMachine | internal/team/team.go:49-82 | One machine's blockers, verdict and issue cells are those of its full comparison with the baseline. |
| Team.AddToTally | internal/team/team.go:83-86 | The tally loop counts each normalized blocker as often as it occurs. |
| Team.RankBlockers | internal/team/team.go:123-135 | The ranking is the listing of the tally by count, then text. |
| Team.RankingConservesBlockers | internal/team/team.go:83-86 | The ranked counts sum to all the tallied blockers. |
| Team.FillOk | internal/team/team.go:98-105 | After filling, every column has a cell, and it is ok exactly when nothing feeds that column. |
| Team.Build | internal/team/team.go:44-112 | The nested loops compute a summary: sorted differing runtimes then Env and Ports, a complete row per machine, and the ranking of all blockers. |
| TeamInvariance.NormalizeMissingOn | internal/team/team.go:137-146 | Normalizing a missing-runtime blocker drops exactly the machine's name, even if the name itself contains " on ". |
| TeamCounts.MachineCount | internal/team/team.go:83-86 | One machine adds one to the count of each of its normalized blockers, and two to the env text when each side lacks a key of the other. |
| Baseline.BaseNameOfPath | internal/baseline/baseline.go:24-26 | Of a project path only its last element survives, trailing slashes or not. |
| Baseline.SanitizedOnce | internal/baseline/baseline.go:13-34 | Sanitizing is idempotent, leaves no hostname and no directory, and forgets both entirely when the project is named. |
| Baseline.Compare | internal/baseline/baseline.go:38-67 | The report holds the full comparison's entries as items, and the status its verdict calls for. |
| Baseline.SeverityCarriesOver | internal/baseline/baseline.go:69-78 | Each severity list of the report is the mapped severity list of the comparison. |
| Txt.ParseTXT | internal/lan/advertise.go:164-180 | The map-filling loop reads the last value of each key, an absent one as blank, and a bad expiry as the bound strconv returns beside its error. |
| Decimal.OverflowHidesTail | internal/lan/advertise.go:178-178 | An expiry whose digits pass 64 unsigned bits is out of range whatever follows them, so a bad character behind them is never seen. |
| ServerCauses.HandlersServeArrivals | internal/share/server.go:129-161 | In every reachable state handler i serves the i-th request that arrived, unchanged. |
| CheckVerdicts.RuntimeItemsAscend | internal/check/check.go:69-76 | The runtime items stand in the byte order of their names, each name at most once. |
| CheckVerdicts.CheckSetup | internal/check/check.go:33-66 | The report object after both checks: its items, labels and status text, ready exactly when neither check fails. |
| Generated.OnlyPresenceAsked | internal/initcfg/initcfg.go:105-129 | Where there is no version or no major to go by, and for docker beside its marker files, only presence is asked for. |
| Generated.ListedExactly | internal/initcfg/initcfg.go:105-119 | A generated config lists exactly the runtimes the manifests imply, each manifest's spelled out, and docker beside its marker files. |
| FeatureGroups.DisabledGroup | internal/initcfg/envclassify.go:106-128 | With its switch set to false a group's blank secret is optional and not required. |
| FeatureGroups.EnabledGroup | internal/initcfg/envclassify.go:106-128 | With its switch set to true the same secret is required and not optional. |
| TeamTable.ColumnsSpelledOut | internal/team/team.go:88-104 | The columns are the runtimes that differ on some machine, in byte order, then Env and Ports. |
| TeamTable.RankingOrder | internal/team/team.go:123-135 | Of two ranked blockers the first has more machines, or as many and the smaller text byte by byte. |
| PlanVerdicts.ServicePlan | internal/fixplan/fixplan.go:116-125 | A service or port finding plans one guided start of exactly that service. |
| PlanVerdicts.EnvPlan | internal/fixplan/fixplan.go:75-103 | An env finding plans a create exactly where only the example exists, and an append of exactly the keys its sentence names. |
| PlanVerdicts.OtherPlan | internal/fixplan/fixplan.go:54-72 | A finding of any other category is told and nothing is proposed for it. |
| PlanVerdicts.InfoPlansNothing | internal/fixplan/fixplan.go:44-49 | An informational finding plans nothing. |
| EnvLines.PairLine | internal/capture/envfiles.go:47-72 | A line with a key, an equals sign and a value reads as that pair, with white space around it and an export in front or not. |
| EnvLines.LineKinds | internal/capture/envfiles.go:54-62 | A line is blank exactly when it holds white space only, and a comment exactly when a hash is the first other character. |
| RuntimeNames.LookupByName | internal/model/model.go:92-124 | A name in any letter case finds the field that is displayed under it, and any other name finds none. |
| RuntimeNames.ManifestsImply | internal/initcfg/initcfg.go:20-31 | Which runtimes each manifest file implies to init. |
| RuntimeNames.ManifestsNeed | internal/diff/runtimes.go:10-21 | Which runtimes each manifest file makes a required one in the comparison. |
| Spelling.EqualFoldSpells | internal/initcfg/envclassify.go:125-128 | Folded equality is equality letter by letter in either case. |
| Spelling.NamesAnyMentions | internal/initcfg/envclassify.go:130-141 | A name holds one of the terms exactly when it spells one somewhere, in any letter case. |
| CheckVerdicts.KeywordSpelled | internal/verreq/verreq.go:35-41 | A requirement asks for presence only when, white space aside, it is blank, a star, or spells required, present or any in any letter case. |
| Generated.MajorOfPrinted | internal/initcfg/initcfg.go:131-143 | The major of a printed version is its first component. |
| Baseline.SanitizedName | internal/baseline/baseline.go:19-33 | A project without a name is shared under the last element of its directory, whatever leads there; a named one keeps its name. |
| Reports.DedupKeepsOrder | internal/diff/diff.go:70-80 | Of two blockers kept, the one that appeared first stands first. |
| Reports.SeverityInOrder | internal/diff/diff.go:59-68 | Filing by severity keeps the order of the items. |
| EnvClassify.ClassInOrder | internal/initcfg/initcfg.go:60-70 | The keys of a class stand in the order of the file. |
| FixApply.OutcomesInOrder | internal/fixplan/apply.go:33-62 | A run reports in the order of the plan: run part by part, it reports part by part. |
| FixApply.EnvActionSays | internal/fixplan/apply.go:64-109 | What a run says of an env action, in full: a dry run, a missing example, the error of opening the file, or that it was applied. |
| Text.CarriageReturnDropped | internal/capture/envfiles.go:47-56 | A line that ends the Windows way reads as the same line. |
| CheckVerdicts.MissingInOrder | internal/check/check.go:141-156 | The missing keys keep the order of the config, part by part. |
| DiffSides.SubtractInOrder | internal/diff/envfiles.go:41-53 | The keys only one side lacks keep their order, part by part. |
| Decimal.NearestBound | internal/lan/advertise.go:164-180 | Digits out of the 64-bit range read as the nearest bound, and what is no number as 0. |
| FixApply.HeldActionSays | internal/fixplan/apply.go:38-133 | What a run says of a pull in a dry run or without consent, and of an action it does not know. |
| Operators.NumbersAreReadable | internal/verreq/verreq.go:69-93 | A comparator with a printed version is never unreadable, whatever its operator. |
| PlanVerdicts.SwitchNamesVersion | internal/fixplan/fixplan.go:183-213 | Every command of a switch names the expected version, the closing remark for node apart. |
| ServerCauses.RoutesSpelledOut | internal/share/server.go:100-131 | The two routes, byte by byte. |
| Baseline.BaseNameOfNone | internal/baseline/baseline.go:19-33 | A directory of slashes only gives the name of the root, no directory that of the current one. |
| EnvLines.NoEqualsNoPair | internal/capture/envfiles.go:54-71 | A line without an equals sign that is neither blank nor a comment gives no key. |
| Txt.RecordsSpelledOut | internal/lan/advertise.go:70-80 | The six records a share announces, key by key, and no other. |
| EnvCapture.MissingKeysExactly | internal/capture/envfiles.go:16-45 | Captured as missing are the example's keys that the env file does not declare, and all of them without one. |
| InitCfg.SectionFromText | internal/initcfg/initcfg.go:54-97 | The generated lists of required and recommended keys, each by a line of the example that makes it so. |
| FixApply.OutcomesAreKept | internal/fixplan/apply.go:33-62 | Every message of a run comes from one of its actions, and none of theirs is lost. |
| FixApply.PullIsReported | internal/fixplan/apply.go:111-133 | With consent a planned pull reports the image's own error, or that it was applied. |
| FixApply.AppendedAreBlank | internal/fixplan/apply.go:86-109 | What is appended reads back as one blank assignment per key, in order. |

## Left out

- ShareServer.StepRefinesBudget: tickets are unbounded numbers; the wrap-around of the 64-bit counter after 2^63 downloads is not modelled.
- ShareServer.AlwaysInv: requests may arrive at any time, also after shutdown began, which admits more runs than the HTTP server does; write timeouts and lost connections are not modelled, a started response counts as a copy.
- ShareServer.LaunchedCloseReachesDone: fairness of the goroutine scheduler is a hypothesis, and Shutdown is taken to return (it has a two-second deadline).
- ShareServer.EveryFairRunEnds: that an armed timer fires one day is part of the fairness hypothesis; durations are not modelled.
- ShareServer.GateAnswers: the multiplexer's own path cleaning and redirects are not modelled; the path is compared as the handler sees it.
- EnvText.ReadEnvKeys: the scanner's limit on line length is not modelled.
- FixApply.Workspace.ApplySafe: messages on standard output, file modes and paths are not modelled; whether a pull succeeds and whether the env file can be opened are parameters.
- FixApply.Workspace.CreateEnvFromExample: a write that fails after the file was opened is not modelled.
- FixApply.Workspace.AppendMissingKeys: a write that fails after the file was opened is not modelled.
- FixPlans.Build: the project label of a plan is left out, and quoting the name of a compose file does not escape special characters.
- ShareServer.Configure: the host and port options are left out.
- FixLoop.FixConvergesExactly: the missing keys are taken to be well-formed (one line, no comma, no `: `, no `=`, not opening like a comment or an export), which makes the condition one on the files alone; FixEvery.FixSuffices is exact for every other config.
- FixEvery.FixSufficesForWellFormed: an env file with an unfinished last line, and an example beside no env file, are left to FixEvery.FixSuffices, which is exact for them too.
- FixLoop.TwoRoundsAlwaysConverge: the missing keys are taken to be well-formed; FixEvery.SecondRoundExactly is exact for every other config.
- Baseline.BaseNameOfPath: `/` is the only path separator.
- Sorting.SortElements: the sort is an insertion sort; the algorithm of Go's sort package is not modelled.
- Letters and white space are ASCII; Unicode case folding and spaces are not modelled.
- TLS, certificates, random tokens and codes, the HTTP client, and choosing the local address: the path and code are arbitrary byte strings, and a drawn number is a parameter.
- The mDNS network itself: registration, browsing, instance names and address selection.
- YAML and JSON: configs and snapshots are values, and init produces key lists and a runtime map rather than text.
- The port, git, path, docker, system, probe, env-safety, custom and plugin checks, each settled by one branch.
- Probing the machine, secret scanning, terminal rendering and the command line.
