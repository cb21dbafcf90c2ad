/**
 The program reads version text in four places: capture extracts a token from
 tool output, the diff engine splits components, init takes the major, and the
 requirement check parses. Here the four readers are shown to agree.
 */
module Versions {
  import opened Prelude
  import opened Text
  import opened Decimal
  import opened VersionReq

  // ------------------------------------- capture: \d+(\.\d+){1,3}

  function SemverStart(s: string, i: nat): (k: nat)
    requires i <= |s|
    ensures i <= k <= |s| && (k < |s| ==> IsDigit(s[k]) && GroupAt(s, DigitsEnd(s, k)))
    ensures forall n | i <= n < k :: !(IsDigit(s[n]) && GroupAt(s, DigitsEnd(s, n)))
    decreases |s| - i
  {
    if i == |s| || (IsDigit(s[i]) && GroupAt(s, DigitsEnd(s, i))) then i else SemverStart(s, i + 1)
  }

  function FindSemver(s: string): Option<string> {
    var i := SemverStart(s, 0);
    if i == |s| then None else Some(s[i..TokenEnd(s, i, 3)])
  }

  /** The cleaned version, or the raw text when nothing looks like one. */
  function ExtractVersion(raw: string): string {
    match FindSemver(raw)
    case Some(m) => m
    case None => raw
  }

  ghost predicate IsSemver(t: string) { IsDotted(t) && 1 <= Dots(t) <= 3 }

  lemma {:induction false} TokenDots(s: string, i: nat, groups: nat)
    requires i < |s| && IsDigit(s[i])
    ensures Dots(s[i..TokenEnd(s, i, groups)]) <= groups
    ensures groups > 0 && GroupAt(s, DigitsEnd(s, i)) ==> Dots(s[i..TokenEnd(s, i, groups)]) > 0
    decreases groups
  {
    var e := DigitsEnd(s, i);
    if groups > 0 && GroupAt(s, e) {
      TokenDots(s, e + 1, groups - 1);
      DotsAfterDigits(s, i, TokenEnd(s, i, groups), e);
    } else {
      NoDotsInDigits(s[i..e]);
    }
  }

  lemma SemverStartsThere(s: string, a: nat, b: nat)
    requires a <= b <= |s| && IsSemver(s[a..b])
    ensures IsDigit(s[a]) && GroupAt(s, DigitsEnd(s, a)) && b <= TokenEnd(s, a, 3)
  {
    assert DottedAt(s[a..b], 0);
    TokenIsLongest(s, a, b, 3);
  }

  /** Extraction finds the leftmost, then longest, dotted token of two to four components. */
  lemma ExtractIsLeftmostLongest(s: string) returns (i: nat, j: nat)
    ensures i <= j <= |s|
    ensures FindSemver(s).Some? ==> FindSemver(s).value == s[i..j] && IsSemver(s[i..j])
    ensures FindSemver(s).Some? ==> forall b | j < b <= |s| :: !IsSemver(s[i..b])
    ensures FindSemver(s).Some? ==> forall a, b | 0 <= a < i && a <= b <= |s| :: !IsSemver(s[a..b])
    ensures FindSemver(s).None? <==> forall a, b | 0 <= a <= b <= |s| :: !IsSemver(s[a..b])
    ensures ExtractVersion(s) == if FindSemver(s).Some? then s[i..j] else s
  {
    i := SemverStart(s, 0);
    j := if i == |s| then i else TokenEnd(s, i, 3);
    forall a, b | 0 <= a <= b <= |s| && IsSemver(s[a..b])
      ensures i < |s| && i <= a && (a == i ==> b <= j)
    {
      SemverStartsThere(s, a, b);
    }
    if i < |s| {
      TokenIsDotted(s, i, 3);
      TokenDots(s, i, 3);
      assert IsSemver(s[i..j]);
    }
  }

  // ------------------------------------------------- diff: components

  function ParseComponents(v: string): seq<int> { Numbers(Split(v, '.')) }

  method SplitComponents(v: string) returns (nums: seq<int>)
    ensures nums == ParseComponents(v)
  {
    nums := LeadingNumbers(Split(v, '.'));
  }

  predicate MajorDiffers(a: string, b: string) {
    var ca, cb := ParseComponents(a), ParseComponents(b);
    ca != [] && cb != [] && ca[0] != cb[0]
  }

  // ------------------------------------------------------ init: the major

  function MajorOf(version: string): string {
    var v := Trim(version);
    var i := IndexByte(v, '.');
    var w := if i > 0 then v[..i] else v;
    if Atoi(w) == None then "" else w
  }

  // -------------------------------------------------------- agreement

  /** The first part of a dotted number is its leading digits. */
  lemma SplitDotted(t: string)
    requires IsDotted(t)
    ensures var p := Split(t, '.')[0]; p <= t && p != "" && AllDigits(p)
    ensures MajorOf(t) == if Atoi(Split(t, '.')[0]) == None then "" else Split(t, '.')[0]
  {
    assert DottedAt(t, 0) && DottedAt(t, |t| - 1);
    TrimOfTrimmed(t);
    var i := IndexByte(t, '.');
    var p := if i < 0 then t else t[..i];
    forall k | 0 <= k < |p|
      ensures IsDigit(p[k])
    {
      assert DottedAt(t, k);
    }
  }

  /**
   On extracted versions the readers agree: the requirement parser and the diff engine see
   the same components, whatever their size, and the major is the text of the first.
   */
  lemma VersionReadersAgree(raw: string)
    requires FindSemver(raw).Some?
    ensures var m := ExtractVersion(raw);
      && IsSemver(m)
      && Parse(m) == (if ParseComponents(m) == [] then None else Some(ParseComponents(m)))
      && (MajorOf(m) == "" <==> ParseComponents(m) == [])
      && (MajorOf(m) != "" ==> MajorOf(m) == Split(m, '.')[0] && Atoi(MajorOf(m)) == Some(ParseComponents(m)[0]))
  {
    var i, j := ExtractIsLeftmostLongest(raw);
    var m := ExtractVersion(raw);
    ParseWhole("", m);
    assert "" + m == m;
    SplitDotted(m);
  }

  lemma OneComparator(found: string, w: string)
    requires IsWord(w) && Parse(found).Some?
    ensures Check(found, w).ok <==> EvalComparator(Parse(found).value, w) == Holds
  {
    CheckOkIsConjunction(found, w);
    hide Check, Comparators, EvalComparator, Parse;
    ComparatorsOfJoin([w]);
    assert [w][0] == w;
  }

  ghost predicate IsSign(sign: string) {
    |sign| <= 1 && (sign != "" ==> sign[0] == '-' || sign[0] == '+')
  }

  /** The requirement parser reads a signed run of digits without its sign. */
  lemma ParseDigits(sign: string, d: string)
    requires IsSign(sign) && d != "" && AllDigits(d)
    ensures Parse(sign + d) == if Value(d) <= MAX_INT64 then Some([Value(d)]) else None
  {
    hide Parse, Numbers, Split;
    DigitsAreDotted(d);
    NumbersOfDigits(d);
    ParseWhole(sign, d);
  }

  lemma DigitsAreDotted(d: string)
    requires d != "" && AllDigits(d)
    ensures IsDotted(d) && Split(d, '.') == [d]
  {
    assert forall k | 0 <= k < |d| :: DottedAt(d, k);
  }

  lemma NumbersOfDigits(d: string)
    requires d != "" && AllDigits(d)
    ensures Numbers([d]) == if Value(d) <= MAX_INT64 then [Value(d)] else []
  {
    AtoiDigits(d);
    assert [d][0] == d && [d][1..] == [];
  }

  lemma SignedDigitsShape(sign: string, d: string)
    requires IsSign(sign) && d != "" && AllDigits(d)
    ensures sign + d != "" && Trimmed(sign + d) && !OpChar((sign + d)[0]) && NoSpace(sign + d)
  {
    var m := sign + d;
    assert m[|m| - 1] == d[|d| - 1];
    assert forall k | 0 <= k < |m| :: m[k] == if k < |sign| then sign[k] else d[k - |sign|];
  }

  /** A signed run of digits as the version of a comparator. */
  lemma DigitsComparator(found: seq<int>, op: Op, sign: string, d: string)
    requires IsSign(sign) && d != "" && AllDigits(d) && Value(d) <= MAX_INT64
    ensures EvalComparator(found, OpText(op) + (sign + d)) == DecideOp(op, CompareN(found, [Value(d)], 1))
  {
    ParseDigits(sign, d);
    SignedDigitsShape(sign, d);
    EvalOfText(found, op, sign + d);
  }

  lemma CompareWithOne(found: seq<int>, x: int)
    ensures CompareN(found, [x], 1) == if At(found, 0) < x then -1 else if At(found, 0) > x then 1 else 0
  {
    assert CompareFrom(found, [x], 1, 1) == 0;
  }

  /** A bare major accepts exactly the versions with that first component. */
  lemma BareMajorAccepts(found: string, d: string)
    requires d != "" && AllDigits(d) && Value(d) <= MAX_INT64 && Parse(found).Some?
    ensures Check(found, d).ok <==> At(Parse(found).value, 0) == Value(d)
  {
    var fv := Parse(found).value;
    assert "" + d == d && OpText(Bare) + d == d;
    DigitsComparator(fv, Bare, "", d);
    CompareWithOne(fv, Value(d));
    SignedDigitsShape("", d);
    OneComparator(found, d);
  }

  lemma MajorOfSemver(t: string)
    requires IsSemver(t) && MajorOf(t) != ""
    ensures AllDigits(MajorOf(t)) && Value(MajorOf(t)) <= MAX_INT64
    ensures ParseComponents(t) != [] && ParseComponents(t)[0] == Value(MajorOf(t))
    ensures Parse(t) == Some(ParseComponents(t))
  {
    ParseWhole("", t);
    assert "" + t == t;
    SplitDotted(t);
    AtoiDigits(MajorOf(t));
  }

  lemma UnreadableMajor(t: string)
    requires IsSemver(t) && MajorOf(t) == ""
    ensures ParseComponents(t) == [] && Parse(t) == None
  {
    ParseWhole("", t);
    assert "" + t == t;
    SplitDotted(t);
  }

  /**
   On captured versions a major mismatch in the diff is a bare-major requirement that rejects,
   exactly when the checked version's own major can be read.
   */
  lemma MajorMismatchIsBareRequirement(a: string, b: string)
    requires IsSemver(a) && IsSemver(b)
    ensures (MajorDiffers(a, b) <==> !Check(a, MajorOf(b)).ok) <==> MajorOf(a) != ""
  {
    hide Parse, ParseComponents, MajorOf, CheckAll, Comparators;
    if MajorOf(a) == "" {
      UnreadableMajor(a);
    } else {
      MajorOfSemver(a);
      if MajorOf(b) == "" {
        UnreadableMajor(b);
        EmptyRequirement(Parse(a).value);
      } else {
        MajorOfSemver(b);
        BareMajorAccepts(a, MajorOf(b));
      }
    }
  }

  // -------------------------------- init's requirement accepts its own version

  lemma {:induction false} LeadingNumber(sign: string, d: string, rest: string)
    requires d != "" && AllDigits(d) && IsSign(sign)
    requires rest != "" ==> rest[0] == '.'
    ensures var tok := NumToken(sign + d + rest); tok != "" && Split(tok, '.')[0] == d
  {
    var s := sign + d + rest;
    var i, e := |sign|, |sign| + |d|;
    assert forall k | i <= k < e :: s[k] == d[k - i];
    assert e < |s| ==> s[e] == rest[0];
    assert sign != "" ==> s[0] == sign[0];
    assert FirstDigit(s, 0) == i;
    assert DigitsEnd(s, i) == e;
    TokenFront(s, i, e);
    assert s[i..e] == d;
    hide NumToken;
    LeadingPart(NumToken(s), d);
  }

  lemma TokenFront(s: string, i: nat, e: nat)
    requires i < e <= |s| && FirstDigit(s, 0) == i && DigitsEnd(s, i) == e && (e < |s| ==> s[e] == '.')
    ensures s[i..e] <= NumToken(s) && (|NumToken(s)| > e - i ==> NumToken(s)[e - i] == '.')
  {
    var j := TokenEnd(s, i, |s|);
    assert j >= e;
    assert s[i..j][..e - i] == s[i..e];
  }

  lemma LeadingPart(tok: string, d: string)
    requires d != "" && AllDigits(d) && d <= tok && (|tok| > |d| ==> tok[|d|] == '.')
    ensures Split(tok, '.')[0] == d
  {
    assert forall k | 0 <= k < |d| :: tok[k] == d[k];
    if |tok| > |d| {
      IndexByteUnique(tok, '.', |d|);
      assert tok[..|d|] == d;
    } else {
      assert tok == d;
      assert IndexByte(tok, '.') < 0;
    }
  }

  /** What strconv.Atoi accepts is an optional sign and digits. */
  lemma AtoiParts(m: string) returns (sign: string, d: string)
    requires Atoi(m).Some?
    ensures m == sign + d && IsSign(sign) && d != "" && AllDigits(d)
    ensures Atoi(m) == Some(if sign == "-" then -(Value(d) as int) else Value(d))
  {
    if m[0] == '-' || m[0] == '+' {
      sign, d := [m[0]], m[1..];
    } else {
      sign, d := "", m;
    }
  }

  lemma MajorThenRest(v: string) returns (rest: string)
    requires MajorOf(v) != ""
    ensures Trim(v) == MajorOf(v) + rest && Atoi(MajorOf(v)).Some?
    ensures rest != "" ==> rest[0] == '.'
  {
    var t := Trim(v);
    var i := IndexByte(t, '.');
    rest := if i > 0 then t[i..] else "";
  }

  /** The requirement parser's first component is the major's digits, if they fit. */
  lemma ParseLeading(v: string, sign: string, d: string, rest: string)
    requires Trim(v) == sign + d + rest && IsSign(sign) && d != "" && AllDigits(d)
    requires rest != "" ==> rest[0] == '.'
    ensures Parse(v).Some? <==> Value(d) <= MAX_INT64
    ensures Parse(v).Some? ==> At(Parse(v).value, 0) == Value(d)
  {
    hide Atoi, Value, AllDigits, IsSign, Trim;
    LeadingNumber(sign, d, rest);
    AtoiDigits(d);
  }

  /**
   The requirement init writes for a captured version accepts that version, unless the major
   reads as the smallest 64-bit integer: then its digits overflow and nothing can be parsed.
   */
  lemma GeneratedRequirementAcceptsItsVersion(v: string)
    requires MajorOf(v) != ""
    ensures Check(v, OpText(Ge) + MajorOf(v)) ==
            if Atoi(MajorOf(v)) == Some(MIN_INT64) then CheckResult(false, false) else CheckResult(true, true)
  {
    var rest := MajorThenRest(v);
    var sign, d := AtoiParts(MajorOf(v));
    ParseLeading(v, sign, d, rest);
    MajorInRange(MajorOf(v), sign, d);
    if Value(d) <= MAX_INT64 {
      AtLeastMajorAccepts(v, sign, d);
    } else {
      UnreadableFound(v, OpText(Ge) + MajorOf(v));
    }
  }

  lemma MajorInRange(m: string, sign: string, d: string)
    requires AllDigits(d) && Atoi(m) == Some(if sign == "-" then -(Value(d) as int) else Value(d))
    ensures Atoi(m) == Some(MIN_INT64) <==> Value(d) > MAX_INT64
  {
  }

  lemma UnreadableFound(found: string, requirement: string)
    requires Parse(found) == None
    ensures Check(found, requirement) == CheckResult(false, false)
  {
  }

  lemma AtLeastMajorAccepts(v: string, sign: string, d: string)
    requires IsSign(sign) && d != "" && AllDigits(d) && Value(d) <= MAX_INT64
    requires Parse(v).Some? && At(Parse(v).value, 0) >= Value(d)
    ensures Check(v, OpText(Ge) + (sign + d)) == CheckResult(true, true)
  {
    hide Check, EvalComparator, Parse, CompareN, OpText, Accepts, IsWord, Comparators;
    var fv := Parse(v).value;
    var w := OpText(Ge) + (sign + d);
    DigitsComparator(fv, Ge, sign, d);
    CompareWithOne(fv, Value(d));
    SignedDigitsShape(sign, d);
    GeWord(sign, d);
    OneComparator(v, w);
    CheckOkIsConjunction(v, w);
  }

  lemma GeWord(sign: string, d: string)
    requires NoSpace(sign + d)
    ensures IsWord(OpText(Ge) + (sign + d))
  {
    var w := OpText(Ge) + (sign + d);
    assert forall k | 0 <= k < |w| :: w[k] == if k < 2 then OpText(Ge)[k] else (sign + d)[k - 2];
  }
}
