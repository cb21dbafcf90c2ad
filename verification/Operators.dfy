/** What each operator of the requirement language means, in the order of versions. */
module Operators {
  import opened Text
  import opened VersionReq

  /** Below the wanted version, as far as that one is written out. */
  ghost predicate Below(found: seq<int>, want: seq<int>) { exists k: nat :: k < |want| && LessAt(found, want, k) }

  ghost predicate Above(found: seq<int>, want: seq<int>) { exists k: nat :: k < |want| && LessAt(want, found, k) }

  lemma EitherSide(found: seq<int>, want: seq<int>)
    ensures Below(found, want) <==> CompareN(found, want, |want|) < 0
    ensures Above(found, want) <==> CompareN(found, want, |want|) > 0
    ensures !(Below(found, want) && Above(found, want))
    ensures AgreeBelow(found, want, |want|) <==> !Below(found, want) && !Above(found, want)
  {
    CompareNIsSign(found, want, |want|);
    hide CompareN;
  }

  lemma SpelledOut(nums: seq<nat>)
    ensures OpText(Bare) + FormatVersion(nums) == FormatVersion(nums)
    ensures OpText(Eq) == "=" && OpText(EqEq) == "==" && OpText(Gt) == ">" && OpText(Ge) == ">="
    ensures OpText(Lt) == "<" && OpText(Le) == "<="
  {
    hide FormatVersion;
  }

  ghost predicate Satisfied(found: seq<int>, comp: string) { EvalComparator(found, comp) == Holds }

  /** A comparator with a printed version is decided, and by its operator and the order alone. */
  lemma OperatorsMean(found: seq<int>, nums: seq<nat>)
    requires Printable(nums)
    ensures var v := FormatVersion(nums);
      && (Satisfied(found, ">=" + v) <==> !Below(found, nums))
      && (Satisfied(found, ">" + v) <==> Above(found, nums))
      && (Satisfied(found, "<=" + v) <==> !Above(found, nums))
      && (Satisfied(found, "<" + v) <==> Below(found, nums))
      && (Satisfied(found, "==" + v) <==> AgreeBelow(found, nums, |nums|))
      && (Satisfied(found, "=" + v) <==> AgreeBelow(found, nums, |nums|))
      && (Satisfied(found, v) <==> AgreeBelow(found, nums, |nums|))
  {
    hide EvalComparator, FormatVersion, CompareN, OpText, Below, Above, AgreeBelow, Printable, Satisfied;
    SpelledOut(nums);
    EitherSide(found, nums);
    OperatorDecides(found, Ge, nums);
    OperatorDecides(found, Gt, nums);
    OperatorDecides(found, Le, nums);
    OperatorDecides(found, Lt, nums);
    OperatorDecides(found, EqEq, nums);
    OperatorDecides(found, Eq, nums);
    OperatorDecides(found, Bare, nums);
  }

  lemma OperatorDecides(found: seq<int>, op: Op, nums: seq<nat>)
    requires Printable(nums)
    ensures var c := CompareN(found, nums, |nums|);
      Satisfied(found, OpText(op) + FormatVersion(nums)) <==>
        match op
        case Ge => c >= 0
        case Gt => c > 0
        case Le => c <= 0
        case Lt => c < 0
        case _ => c == 0
  {
    hide EvalComparator, FormatVersion, CompareN, OpText, Printable;
    EvalOfNumbers(found, op, nums);
  }

  /** And such a comparator is never unreadable. */
  lemma NumbersAreReadable(found: seq<int>, op: Op, nums: seq<nat>)
    requires Printable(nums)
    ensures EvalComparator(found, OpText(op) + FormatVersion(nums)) != Unreadable
  {
    hide EvalComparator, FormatVersion, CompareN, OpText, Printable;
    EvalOfNumbers(found, op, nums);
    Decided(op, CompareN(found, nums, |nums|));
  }

  lemma Decided(op: Op, c: int)
    ensures DecideOp(op, c) != Unreadable
  {
  }

  /** A list of printed comparators, blank-separated, accepts a printed version exactly when each is satisfied. */
  lemma RequirementMeans(found: seq<nat>, comps: seq<string>)
    requires Printable(found) && forall k | 0 <= k < |comps| :: IsWord(comps[k])
    ensures Check(FormatVersion(found), Join(comps, " ")).ok <==>
              forall k | 0 <= k < |comps| :: Satisfied(found, comps[k])
  {
    hide EvalComparator, FormatVersion, Parse, Comparators, Check, IsWord, Printable;
    VersionTextRoundTrip(Bare, found);
    ComparatorsOfJoin(comps);
    CheckOkIsConjunction(FormatVersion(found), Join(comps, " "));
  }
}
