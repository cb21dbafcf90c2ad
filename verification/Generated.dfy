/** What the requirements init writes mean for the other machines that are checked against them. */
module Generated {
  import opened Prelude
  import opened Text
  import opened Decimal
  import opened Model
  import opened Reports
  import opened Checks
  import opened CheckVerdicts
  import opened InitCfg
  import opened VersionReq
  import opened Versions
  import RuntimeNames

  function Magnitude(m: int): nat { if m < 0 then -m else m }

  /** A machine's version has a major, and not the one integer whose digits do not fit. */
  ghost predicate HasMajor(v: VersionInfo, m: int) {
    v.present && Atoi(MajorOf(v.version)) == Some(m) && m != MIN_INT64
  }

  lemma MajorDigits(m: string, n: int)
    requires Atoi(m) == Some(n) && n != MIN_INT64
    ensures exists sign, d :: m == sign + d && IsSign(sign) && d != "" && AllDigits(d)
              && Value(d) == Magnitude(n) <= MAX_INT64
  {
    var sign, d := AtoiParts(m);
    MajorInRange(m, sign, d);
    assert m == sign + d;
  }

  lemma AtLeastDecides(w: string, sign: string, d: string)
    requires IsSign(sign) && d != "" && AllDigits(d) && Value(d) <= MAX_INT64
    ensures Check(w, OpText(Ge) + (sign + d)).ok <==> Parse(w).Some? && At(Parse(w).value, 0) >= Value(d)
    ensures Check(w, OpText(Ge) + (sign + d)).parsed <==> Parse(w).Some?
  {
    hide EvalComparator, Parse, CompareN, OpText, IsWord, Comparators;
    var req := OpText(Ge) + (sign + d);
    SignedDigitsShape(sign, d);
    GeWord(sign, d);
    if Parse(w).Some? {
      var fv := Parse(w).value;
      DigitsComparator(fv, Ge, sign, d);
      CompareWithOne(fv, Value(d));
      OneWord(req);
      CheckOne(fv, req);
    }
  }

  lemma CheckOne(v: seq<int>, c: string)
    ensures CheckAll(v, [c]) == match EvalComparator(v, c) {
              case Holds => CheckResult(true, true)
              case Fails => CheckResult(false, true)
              case Unreadable => CheckResult(false, false)
            }
  {
    hide EvalComparator;
    assert [c][1..] == [];
  }

  lemma OneWord(req: string)
    requires IsWord(req)
    ensures Comparators(req) == [req]
  {
    hide Comparators, IsWord;
    assert [req][0] == req;
    ComparatorsOfJoin([req]);
  }

  lemma AsksForMajor(runtimes: Runtimes, rt: string, info: VersionInfo, m: int)
    requires LookupRuntime(runtimes, rt) == Some(info) && HasMajor(info, m)
    ensures RequirementFor(runtimes, rt) == OpText(Ge) + MajorOf(info.version)
  {
    hide LookupRuntime;
  }

  /**
   The requirement written for a runtime with a readable major accepts exactly the versions whose
   first component is at least that major, and is read as verified for every readable version.
   */
  lemma RequirementMeans(out: map<string, string>, manifests: seq<string>, runtimes: Runtimes, marker: bool,
      rt: string, info: VersionInfo, m: int, w: string)
    requires IsDetected(out, manifests, runtimes, marker) && rt in out && !(marker && rt == "docker")
    requires LookupRuntime(runtimes, rt) == Some(info) && HasMajor(info, m)
    ensures Check(w, out[rt]).ok <==> Parse(w).Some? && At(Parse(w).value, 0) >= Magnitude(m)
    ensures Check(w, out[rt]).parsed <==> Parse(w).Some?
    ensures !AsksPresenceOnly(out[rt])
  {
    MajorDigits(MajorOf(info.version), m);
    AsksForMajor(runtimes, rt, info, m);
    hide Check, Parse, OpText, RequirementFor, MajorOf, LookupRuntime, Atoi, Value, IsRequiredKeyword,
        AsksPresenceOnly, IsSign, AllDigits, Implied;
    var sign, d :| MajorOf(info.version) == sign + d && IsSign(sign) && d != "" && AllDigits(d)
                   && Value(d) == Magnitude(m) <= MAX_INT64;
    AtLeastDecides(w, sign, d);
    SignedDigitsShape(sign, d);
    AtLeastIsNoKeyword(sign + d);
    KeywordSpelled(out[rt]);
  }

  /** Without a version to go by, only presence is asked for. */
  lemma OnlyPresenceAsked(out: map<string, string>, manifests: seq<string>, runtimes: Runtimes,
      marker: bool, rt: string)
    requires IsDetected(out, manifests, runtimes, marker) && rt in out
    requires (marker && rt == "docker") || LookupRuntime(runtimes, rt) == None
          || !LookupRuntime(runtimes, rt).value.present || MajorOf(LookupRuntime(runtimes, rt).value.version) == ""
    ensures out[rt] == "required" && AsksPresenceOnly(out[rt])
  {
    KeywordRequired();
    KeywordSpelled(REQUIRED);
    hide LookupRuntime, MajorOf, Implied;
  }

  /** Which runtimes a generated config lists: those some manifest implies, and docker beside its marker files. */
  lemma ListedExactly(out: map<string, string>, manifests: seq<string>, runtimes: Runtimes, marker: bool, rt: string)
    requires IsDetected(out, manifests, runtimes, marker)
    ensures rt in out <==>
              (exists i | 0 <= i < |manifests| :: RuntimeNames.Implies(manifests[i], rt)) || (marker && rt == "docker")
  {
    forall manifest { RuntimeNames.ManifestsImply(manifest, rt); }
    hide ManifestRuntimes, RuntimeNames.Implies, RequirementFor;
    assert Implied(manifests, rt) <==> exists i | 0 <= i < |manifests| :: RuntimeNames.Implies(manifests[i], rt);
  }

  // -------------------------------------------------- captured and checked

  /** The major of a printed version is its first component. */
  lemma MajorOfPrinted(nums: seq<nat>)
    requires Printable(nums)
    ensures Atoi(MajorOf(FormatVersion(nums))) == Some(nums[0])
  {
    FormatVersionIsDotted(nums);
    SplitDotted(FormatVersion(nums));
    assert FormatParts(nums)[0] == FormatNat(nums[0]);
    AtoiDigits(FormatNat(nums[0]));
    hide MajorOf, FormatVersion, FormatParts, FormatNat, Atoi;
  }

  /**
   A teammate's machine against a config generated on this one: the runtime is fine there iff it is
   present with a first component no smaller than this machine's; a smaller one or none at all is
   critical, and a version without a number is a warning.
   */
  lemma TeammateVerdict(out: map<string, string>, manifests: seq<string>, mine: Runtimes, marker: bool,
      rt: string, info: VersionInfo, m: int, theirs: Runtimes, v: VersionInfo)
    requires IsDetected(out, manifests, mine, marker) && rt in out && !(marker && rt == "docker")
    requires LookupRuntime(mine, rt) == Some(info) && HasMajor(info, m) && LookupRuntime(theirs, rt) == Some(v)
    ensures var items := RuntimeItems(SortedNames(out.Keys), out, [], theirs);
      && (HasItem(items, rt, Critical) <==>
            !v.present || (Parse(v.version).Some? && At(Parse(v.version).value, 0) < Magnitude(m)))
      && (HasItem(items, rt, Warning) <==> v.present && Parse(v.version) == None)
  {
    RuntimeVerdict(out, [], theirs, rt);
    RequirementMeans(out, manifests, mine, marker, rt, info, m, v.version);
    CheckStops(v.version, out[rt]);
    hide IsDetected, LookupRuntime, HasMajor, Check, StopsWith, Parse, AsksPresenceOnly, RuntimeItems, HasItem;
  }
}
