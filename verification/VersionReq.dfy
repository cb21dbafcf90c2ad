/**
 Version requirements: a dotted-number scanner, a zero-padded lexicographic
 comparison, and space-separated comparators that must all hold.
 */
module VersionReq {
  import opened Prelude
  import opened Text
  import opened Decimal

  // --------------------------------------------- the scanner \d+(\.\d+)*

  function DigitsEnd(s: string, i: nat): (e: nat)
    requires i <= |s|
    ensures i <= e <= |s| && (e < |s| ==> !IsDigit(s[e]))
    ensures forall k | i <= k < e :: IsDigit(s[k])
    ensures i < |s| && IsDigit(s[i]) ==> i < e
    decreases |s| - i
  {
    if i < |s| && IsDigit(s[i]) then DigitsEnd(s, i + 1) else i
  }

  /** Whether a dot and a digit stand at position e. */
  predicate GroupAt(s: string, e: nat) { e + 1 < |s| && s[e] == '.' && IsDigit(s[e + 1]) }

  /** The end of at most `groups` dotted groups that begin at e. */
  function GroupsEnd(s: string, e: nat, groups: nat): (j: nat)
    requires e <= |s|
    ensures e <= j <= |s|
    decreases groups
  {
    if groups > 0 && GroupAt(s, e) then GroupsEnd(s, DigitsEnd(s, e + 1), groups - 1) else e
  }

  function TokenEnd(s: string, i: nat, groups: nat): (j: nat)
    requires i <= |s|
    ensures i <= j <= |s|
  {
    GroupsEnd(s, DigitsEnd(s, i), groups)
  }

  function FirstDigit(s: string, i: nat): (k: nat)
    requires i <= |s|
    ensures i <= k <= |s| && (k < |s| ==> IsDigit(s[k]))
    ensures forall n | i <= n < k :: !IsDigit(s[n])
    decreases |s| - i
  {
    if i < |s| && !IsDigit(s[i]) then FirstDigit(s, i + 1) else i
  }

  /** The text the expression finds, or "". */
  function NumToken(s: string): string {
    var i := FirstDigit(s, 0);
    s[i..TokenEnd(s, i, |s|)]
  }

  /** Membership in the expression's language, told character by character. */
  ghost predicate IsDotted(t: string) {
    t != "" && forall k | 0 <= k < |t| :: DottedAt(t, k)
  }

  ghost predicate DottedAt(t: string, k: nat)
    requires k < |t|
  {
    IsDigit(t[k]) || (t[k] == '.' && 0 < k < |t| - 1 && IsDigit(t[k - 1]) && IsDigit(t[k + 1]))
  }

  ghost function Dots(t: string): nat {
    if t == "" then 0 else (if t[0] == '.' then 1 else 0) + Dots(t[1..])
  }

  lemma {:induction false} DotsAtMost(t: string)
    ensures Dots(t) <= |t|
  {
    if t != "" { DotsAtMost(t[1..]); }
  }

  lemma {:induction false} DotsAfterDigits(s: string, i: nat, j: nat, e: nat)
    requires i <= e < j <= |s| && s[e] == '.' && forall k | i <= k < e :: IsDigit(s[k])
    ensures Dots(s[i..j]) == 1 + Dots(s[e + 1..j])
    decreases e - i
  {
    assert s[i..j][1..] == s[i + 1..j];
    if i < e {
      DotsAfterDigits(s, i + 1, j, e);
    }
  }

  /** What the scanner stops on is a dotted number. */
  lemma {:induction false} TokenIsDotted(s: string, i: nat, groups: nat)
    requires i < |s| && IsDigit(s[i])
    ensures IsDotted(s[i..TokenEnd(s, i, groups)])
    decreases groups
  {
    var e := DigitsEnd(s, i);
    var j := TokenEnd(s, i, groups);
    if groups > 0 && GroupAt(s, e) {
      TokenIsDotted(s, e + 1, groups - 1);
      var rest := s[e + 1..j];
      assert j == TokenEnd(s, e + 1, groups - 1);
      var t := s[i..j];
      assert forall k | e < i + k < j :: t[k] == rest[i + k - e - 1];
      forall k | 0 <= k < |t|
        ensures DottedAt(t, k)
      {
        if i + k > e { assert DottedAt(rest, i + k - e - 1); }
      }
    }
  }

  lemma RestIsDotted(s: string, i: nat, j: nat, e: nat)
    requires i <= e < j <= |s| && IsDotted(s[i..j]) && s[e] == '.'
    ensures e + 1 < j && IsDotted(s[e + 1..j])
  {
    var t, rest := s[i..j], s[e + 1..j];
    assert DottedAt(t, e - i) && t[e - i] == s[e];
    forall k | 0 <= k < |rest|
      ensures DottedAt(rest, k)
    {
      assert DottedAt(t, k + e + 1 - i);
      assert rest[k] == t[k + e + 1 - i] && t[k + e - i] == s[k + e];
    }
  }

  /** No dotted number that starts at i with that many dots reaches further. */
  lemma {:induction false} TokenIsLongest(s: string, i: nat, j: nat, groups: nat)
    requires i < j <= |s| && IsDotted(s[i..j]) && Dots(s[i..j]) <= groups
    ensures j <= TokenEnd(s, i, groups)
    ensures Dots(s[i..j]) > 0 ==> GroupAt(s, DigitsEnd(s, i))
    decreases groups
  {
    var t := s[i..j];
    assert forall k | i <= k < j :: s[k] == t[k - i];
    assert DottedAt(t, 0);
    var e := DigitsEnd(s, i);
    if e < j {
      assert DottedAt(t, e - i);
      DotsAfterDigits(s, i, j, e);
      RestIsDotted(s, i, j, e);
      hide IsDotted, Dots;
      TokenIsLongest(s, e + 1, j, groups - 1);
    } else {
      NoDotsInDigits(t);
    }
  }

  lemma {:induction false} NoDotsInDigits(t: string)
    requires AllDigits(t)
    ensures Dots(t) == 0
  {
    if t != "" { NoDotsInDigits(t[1..]); }
  }

  /** The scanner finds the leftmost maximal dotted number, and nothing only if there is no digit. */
  lemma NumTokenIsLeftmostLongest(s: string) returns (i: nat, j: nat)
    ensures i <= j <= |s| && NumToken(s) == s[i..j]
    ensures forall k | 0 <= k < i :: !IsDigit(s[k])
    ensures i < |s| ==> IsDotted(s[i..j]) && forall j' | j < j' <= |s| :: !IsDotted(s[i..j'])
    ensures NumToken(s) == "" <==> forall k | 0 <= k < |s| :: !IsDigit(s[k])
  {
    i := FirstDigit(s, 0);
    j := TokenEnd(s, i, |s|);
    if i < |s| {
      TokenIsDotted(s, i, |s|);
      forall j' | j < j' <= |s|
        ensures !IsDotted(s[i..j'])
      {
        if IsDotted(s[i..j']) {
          DotsAtMost(s[i..j']);
          TokenIsLongest(s, i, j', |s|);
        }
      }
    }
  }

  /** A dotted number standing alone, or after digit-free text, is scanned whole. */
  lemma NumTokenWhole(pre: string, t: string)
    requires IsDotted(t) && forall k | 0 <= k < |pre| :: !IsDigit(pre[k])
    ensures NumToken(pre + t) == t
  {
    var s := pre + t;
    assert forall k | 0 <= k < |pre| :: s[k] == pre[k];
    assert s[|pre|] == t[0] && DottedAt(t, 0);
    assert FirstDigit(s, 0) == |pre|;
    assert s[|pre|..|s|] == t;
    DotsAtMost(t);
    TokenIsLongest(s, |pre|, |s|, |s|);
  }

  // ----------------------------------------------------------- components

  /** The parts before the first one strconv.Atoi refuses. */
  function Numbers(parts: seq<string>): seq<int> {
    if parts == [] || Atoi(parts[0]) == None then []
    else [Atoi(parts[0]).value] + Numbers(parts[1..])
  }

  function Parse(s: string): Option<seq<int>> {
    var tok := NumToken(Trim(s));
    if tok == "" then None
    else
      var nums := Numbers(Split(tok, '.'));
      if nums == [] then None else Some(nums)
  }

  /** The loop over the token's parts. */
  method ParseVersion(s: string) returns (r: Option<seq<int>>)
    ensures r == Parse(s)
  {
    var tok := NumToken(Trim(s));
    if tok == "" {
      return None;
    }
    var nums := LeadingNumbers(Split(tok, '.'));
    r := if nums == [] then None else Some(nums);
  }

  method LeadingNumbers(parts: seq<string>) returns (nums: seq<int>)
    ensures nums == Numbers(parts)
  {
    nums := [];
    hide Atoi;
    var i := 0;
    while i < |parts|
      invariant 0 <= i <= |parts|
      invariant Numbers(parts) == nums + Numbers(parts[i..])
    {
      var n := Atoi(parts[i]);
      if n == None {
        break;
      }
      nums := nums + [n.value];
      i := i + 1;
    }
    assert Numbers(parts) == nums;
  }

  function FormatParts(nums: seq<nat>): (r: seq<string>)
    ensures |r| == |nums| && forall k | 0 <= k < |nums| :: r[k] == FormatNat(nums[k])
  {
    seq(|nums|, k requires 0 <= k < |nums| => FormatNat(nums[k]))
  }

  function FormatVersion(nums: seq<nat>): string { Join(FormatParts(nums), ".") }

  /** The component lists a version text can spell. */
  ghost predicate Printable(nums: seq<nat>) {
    nums != [] && forall k | 0 <= k < |nums| :: nums[k] <= MAX_INT64
  }

  lemma {:induction false} NumbersOfFormat(nums: seq<nat>)
    requires forall k | 0 <= k < |nums| :: nums[k] <= MAX_INT64
    ensures Numbers(FormatParts(nums)) == nums
  {
    if nums != [] {
      AtoiDigits(FormatNat(nums[0]));
      assert FormatParts(nums)[1..] == FormatParts(nums[1..]);
      NumbersOfFormat(nums[1..]);
    }
  }

  lemma {:induction false} JoinedDigitsAreDotted(parts: seq<string>)
    requires parts != [] && forall k | 0 <= k < |parts| :: parts[k] != "" && AllDigits(parts[k])
    ensures IsDotted(Join(parts, "."))
    ensures IsDigit(Join(parts, ".")[0]) && IsDigit(Join(parts, ".")[|Join(parts, ".")| - 1])
  {
    if |parts| > 1 {
      JoinedDigitsAreDotted(parts[1..]);
      var p, rest := parts[0], Join(parts[1..], ".");
      var t := Join(parts, ".");
      assert t == p + "." + rest;
      assert forall k | 0 <= k < |p| :: t[k] == p[k];
      assert t[|p|] == '.';
      assert forall k | 0 <= k < |rest| :: t[|p| + 1 + k] == rest[k];
      forall k | 0 <= k < |t|
        ensures DottedAt(t, k)
      {
        if k > |p| { assert DottedAt(rest, k - |p| - 1); }
      }
    }
  }

  lemma FormatVersionIsDotted(nums: seq<nat>)
    requires nums != []
    ensures IsDotted(FormatVersion(nums)) && Trimmed(FormatVersion(nums))
    ensures Split(FormatVersion(nums), '.') == FormatParts(nums)
  {
    JoinedDigitsAreDotted(FormatParts(nums));
    forall k | 0 <= k < |nums|
      ensures '.' !in FormatParts(nums)[k]
    {
      assert AllDigits(FormatNat(nums[k]));
    }
    SplitOfJoin(FormatParts(nums), '.');
  }

  // ------------------------------------------------------------ operators

  datatype Op = Bare | Ge | Le | EqEq | Gt | Lt | Eq

  function OpText(op: Op): string {
    match op
    case Bare => ""
    case Ge => ">="
    case Le => "<="
    case EqEq => "=="
    case Gt => ">"
    case Lt => "<"
    case Eq => "="
  }

  predicate OpChar(c: char) { c == '<' || c == '>' || c == '=' }

  /** The longest operator a comparator starts with. */
  function LeadingOp(t: string): Op {
    if |t| >= 2 && t[0] == '>' && t[1] == '=' then Ge
    else if |t| >= 2 && t[0] == '<' && t[1] == '=' then Le
    else if |t| >= 2 && t[0] == '=' && t[1] == '=' then EqEq
    else if |t| >= 1 && t[0] == '>' then Gt
    else if |t| >= 1 && t[0] == '<' then Lt
    else if |t| >= 1 && t[0] == '=' then Eq
    else Bare
  }

  /** A leading comparison operator and the trimmed rest. */
  function SplitOp(s: string): (Op, string) {
    var t := Trim(s);
    var op := LeadingOp(t);
    (op, if op == Bare then t else Trim(t[|OpText(op)|..]))
  }

  lemma SplitOpOfVersion(op: Op, v: string)
    requires v != "" && Trimmed(v) && !OpChar(v[0])
    ensures SplitOp(OpText(op) + v) == (op, v)
  {
    var s := OpText(op) + v;
    assert s[|OpText(op)|] == v[0] && s[|s| - 1] == v[|v| - 1] && s[|OpText(op)|..] == v;
    assert op != Bare ==> s[0] == OpText(op)[0];
    assert LeadingOp(s) == op;
    TrimOfTrimmed(s);
    TrimOfTrimmed(v);
  }

  /** Printing, prefixing any operator, and reading back loses nothing. */
  lemma VersionTextRoundTrip(op: Op, nums: seq<nat>)
    requires Printable(nums)
    ensures SplitOp(OpText(op) + FormatVersion(nums)) == (op, FormatVersion(nums))
    ensures Parse(FormatVersion(nums)) == Some(nums)
    ensures Parse("v" + FormatVersion(nums)) == Some(nums)
  {
    hide Parse, SplitOp, Split, Join, Numbers, FormatVersion, OpText, Trim;
    var v := FormatVersion(nums);
    FormatVersionIsDotted(nums);
    assert DottedAt(v, 0);
    SplitOpOfVersion(op, v);
    NumbersOfFormat(nums);
    ParseWhole("", v);
    assert "" + v == v;
    ParseWhole("v", v);
  }

  lemma ParseWhole(pre: string, v: string)
    requires IsDotted(v) && NoSpace(pre) && forall k | 0 <= k < |pre| :: !IsDigit(pre[k])
    ensures Parse(pre + v) == var nums := Numbers(Split(v, '.')); if nums == [] then None else Some(nums)
  {
    var s := pre + v;
    assert DottedAt(v, 0) && DottedAt(v, |v| - 1);
    assert s[|s| - 1] == v[|v| - 1];
    assert s[0] == if pre == "" then v[0] else pre[0];
    TrimOfTrimmed(s);
    NumTokenWhole(pre, v);
  }

  // ----------------------------------------------------------- comparison

  function At(a: seq<int>, i: nat): int { if i < |a| then a[i] else 0 }

  function CompareFrom(a: seq<int>, b: seq<int>, n: nat, i: nat): (r: int)
    requires n <= |b|
    ensures -1 <= r <= 1
    decreases n - i
  {
    if i >= n then 0
    else if At(a, i) < b[i] then -1
    else if At(a, i) > b[i] then 1
    else CompareFrom(a, b, n, i + 1)
  }

  /** Compare over the first n components of b, a padded with zeros. */
  function CompareN(a: seq<int>, b: seq<int>, n: nat): int {
    CompareFrom(a, b, Min(n, |b|), 0)
  }

  method CompareComponents(a: seq<int>, b: seq<int>, n: nat) returns (r: int)
    ensures r == CompareN(a, b, n)
  {
    var m := n;
    if m > |b| {
      m := |b|;
    }
    for i := 0 to m
      invariant CompareN(a, b, n) == CompareFrom(a, b, m, i)
    {
      var av := 0;
      if i < |a| {
        av := a[i];
      }
      if av < b[i] {
        return -1;
      }
      if av > b[i] {
        return 1;
      }
    }
    return 0;
  }

  ghost predicate AgreeBelow(a: seq<int>, b: seq<int>, n: nat) {
    forall i: nat | i < n :: At(a, i) == At(b, i)
  }

  ghost predicate LessAt(a: seq<int>, b: seq<int>, i: nat) {
    At(a, i) < At(b, i) && AgreeBelow(a, b, i)
  }

  /** The order of versions: lexicographic, with missing components zero. */
  ghost predicate Precedes(a: seq<int>, b: seq<int>) { exists i: nat :: LessAt(a, b, i) }

  ghost predicate NotAfter(a: seq<int>, b: seq<int>) { !Precedes(b, a) }

  lemma {:induction false} CompareFromIsSign(a: seq<int>, b: seq<int>, n: nat, i: nat)
    requires n <= |b| && AgreeBelow(a, b, i)
    ensures CompareFrom(a, b, n, i) == 0 ==> i >= n || AgreeBelow(a, b, n)
    ensures CompareFrom(a, b, n, i) < 0 ==> exists k: nat :: k < n && LessAt(a, b, k)
    ensures CompareFrom(a, b, n, i) > 0 ==> exists k: nat :: k < n && LessAt(b, a, k)
    decreases n - i
  {
    if i < n {
      if At(a, i) < b[i] { assert LessAt(a, b, i); }
      if At(a, i) > b[i] { assert LessAt(b, a, i); }
      if At(a, i) == b[i] { CompareFromIsSign(a, b, n, i + 1); }
    }
  }

  /** The comparison is the lexicographic sign on zero-padded versions cut to n components. */
  lemma CompareNIsSign(a: seq<int>, b: seq<int>, n: nat)
    ensures CompareN(a, b, n) < 0 <==> exists k: nat :: k < Min(n, |b|) && LessAt(a, b, k)
    ensures CompareN(a, b, n) > 0 <==> exists k: nat :: k < Min(n, |b|) && LessAt(b, a, k)
    ensures CompareN(a, b, n) == 0 <==> AgreeBelow(a, b, Min(n, |b|))
  {
    CompareFromIsSign(a, b, Min(n, |b|), 0);
  }

  lemma {:induction false} CompareFromMonotone(a: seq<int>, c: seq<int>, w: seq<int>, n: nat, i: nat)
    requires n <= |w| && NotAfter(a, c) && AgreeBelow(a, c, i)
    ensures CompareFrom(a, w, n, i) <= CompareFrom(c, w, n, i)
    decreases n - i
  {
    if i < n {
      assert !LessAt(c, a, i);
      if At(a, i) == At(c, i) { CompareFromMonotone(a, c, w, n, i + 1); }
    }
  }

  lemma {:induction false} CompareFromAppendZero(a: seq<int>, w: seq<int>, n: nat, i: nat)
    requires n <= |w|
    ensures CompareFrom(a + [0], w, n, i) == CompareFrom(a, w, n, i)
    decreases n - i
  {
    if i < n {
      assert At(a + [0], i) == At(a, i);
      CompareFromAppendZero(a, w, n, i + 1);
    }
  }

  // ---------------------------------------------------------- comparators

  datatype Outcome = Holds | Fails | Unreadable

  datatype CheckResult = CheckResult(ok: bool, parsed: bool)

  function Decide(ok: bool): Outcome { if ok then Holds else Fails }

  /** What an operator makes of the sign of a comparison; no operator means equality. */
  function DecideOp(op: Op, c: int): Outcome {
    match op
    case Bare => Decide(c == 0)
    case Eq => Decide(c == 0)
    case EqEq => Decide(c == 0)
    case Gt => Decide(c > 0)
    case Ge => Decide(c >= 0)
    case Lt => Decide(c < 0)
    case Le => Decide(c <= 0)
  }

  function EvalComparator(found: seq<int>, comp: string): Outcome {
    var (op, rest) := SplitOp(comp);
    match Parse(rest)
    case None => Unreadable
    case Some(want) => DecideOp(op, CompareN(found, want, |want|))
  }

  /** The comparators in order, stopping at the first that is unreadable or fails. */
  function CheckAll(found: seq<int>, comps: seq<string>): CheckResult {
    if comps == [] then CheckResult(true, true)
    else
      match EvalComparator(found, comps[0])
      case Unreadable => CheckResult(false, false)
      case Fails => CheckResult(false, true)
      case Holds => CheckAll(found, comps[1..])
  }

  function Comparators(requirement: string): seq<string> { Fields(Trim(requirement)) }

  function Check(found: string, requirement: string): CheckResult {
    match Parse(found)
    case None => CheckResult(false, false)
    case Some(fv) => CheckAll(fv, Comparators(requirement))
  }

  method CheckRequirement(found: string, requirement: string) returns (r: CheckResult)
    ensures r == Check(found, requirement)
  {
    var fv := ParseVersion(found);
    if fv == None {
      return CheckResult(false, false);
    }
    var comps := Comparators(requirement);
    for i := 0 to |comps|
      invariant Check(found, requirement) == CheckAll(fv.value, comps[i..])
    {
      match EvalComparator(fv.value, comps[i]) {
        case Unreadable => return CheckResult(false, false);
        case Fails => return CheckResult(false, true);
        case Holds =>
      }
    }
    return CheckResult(true, true);
  }

  predicate IsRequiredKeyword(req: string) {
    Lower(Trim(req)) in ["required", "present", "any", "*", ""]
  }

  // ------------------------------------------- what a requirement denotes

  /** The versions a comparator list admits. */
  ghost predicate Accepts(comps: seq<string>, v: seq<int>) {
    forall k | 0 <= k < |comps| :: EvalComparator(v, comps[k]) == Holds
  }

  /** The answer is settled by the first comparator that does not hold. */
  lemma {:induction false} CheckStopsAt(v: seq<int>, comps: seq<string>) returns (k: nat)
    ensures k <= |comps| && Accepts(comps[..k], v)
    ensures k == |comps| ==> CheckAll(v, comps) == CheckResult(true, true)
    ensures k < |comps| ==> EvalComparator(v, comps[k]) != Holds
    ensures k < |comps| ==> CheckAll(v, comps) == CheckResult(false, EvalComparator(v, comps[k]) == Fails)
  {
    hide EvalComparator;
    if comps == [] || EvalComparator(v, comps[0]) != Holds {
      k := 0;
    } else {
      var j := CheckStopsAt(v, comps[1..]);
      k := j + 1;
      forall i | 0 <= i < k
        ensures EvalComparator(v, comps[..k][i]) == Holds
      {
        if i > 0 { assert comps[..k][i] == comps[1..][..j][i - 1]; }
      }
    }
  }

  /** OK means: the version is readable, and every comparator is readable and holds. */
  lemma CheckOkIsConjunction(found: string, requirement: string)
    ensures Check(found, requirement).ok <==>
              Parse(found).Some? && Accepts(Comparators(requirement), Parse(found).value)
    ensures Check(found, requirement).ok ==> Check(found, requirement).parsed
  {
    hide Parse, Comparators, EvalComparator;
    if Parse(found).Some? {
      var comps := Comparators(requirement);
      var k := CheckStopsAt(Parse(found).value, comps);
      if k == |comps| { assert comps[..k] == comps; }
    }
  }

  /** The versions any requirement accepts form an interval. */
  lemma AcceptedVersionsAreAnInterval(comps: seq<string>, a: seq<int>, b: seq<int>, c: seq<int>)
    requires Accepts(comps, a) && Accepts(comps, c)
    requires NotAfter(a, b) && NotAfter(b, c)
    ensures Accepts(comps, b)
  {
    forall k | 0 <= k < |comps|
      ensures EvalComparator(b, comps[k]) == Holds
    {
      ComparatorIsConvex(comps[k], a, b, c);
    }
  }

  lemma ComparatorIsConvex(comp: string, a: seq<int>, b: seq<int>, c: seq<int>)
    requires EvalComparator(a, comp) == Holds && EvalComparator(c, comp) == Holds
    requires NotAfter(a, b) && NotAfter(b, c)
    ensures EvalComparator(b, comp) == Holds
  {
    hide Parse, SplitOp;
    var want := Parse(SplitOp(comp).1).value;
    CompareFromMonotone(a, b, want, |want|, 0);
    CompareFromMonotone(b, c, want, |want|, 0);
  }

  /** On readable version text, >= is the complement of < and <= is the complement of >. */
  lemma OperatorsComplement(found: seq<int>, v: string, op: Op, co: Op)
    requires v != "" && Trimmed(v) && !OpChar(v[0]) && Parse(v).Some?
    requires (op == Ge && co == Lt) || (op == Le && co == Gt)
    ensures EvalComparator(found, OpText(op) + v) == Holds <==> EvalComparator(found, OpText(co) + v) == Fails
    ensures EvalComparator(found, OpText(op) + v) == Fails <==> EvalComparator(found, OpText(co) + v) == Holds
  {
    hide EvalComparator, Parse, CompareN, OpText;
    EvalOfText(found, op, v);
    EvalOfText(found, co, v);
  }

  lemma EvalOfText(found: seq<int>, op: Op, v: string)
    requires v != "" && Trimmed(v) && !OpChar(v[0]) && Parse(v).Some?
    ensures EvalComparator(found, OpText(op) + v)
         == DecideOp(op, CompareN(found, Parse(v).value, |Parse(v).value|))
  {
    SplitOpOfVersion(op, v);
  }

  lemma AppendZeroKeepsComparator(v: seq<int>, comp: string)
    ensures EvalComparator(v + [0], comp) == EvalComparator(v, comp)
  {
    match Parse(SplitOp(comp).1) {
      case None =>
      case Some(want) => CompareFromAppendZero(v, want, |want|, 0);
    }
  }

  lemma {:induction false} AppendZeroKeepsCheckAll(v: seq<int>, comps: seq<string>)
    ensures CheckAll(v + [0], comps) == CheckAll(v, comps)
  {
    if comps != [] {
      AppendZeroKeepsComparator(v, comps[0]);
      AppendZeroKeepsCheckAll(v, comps[1..]);
    }
  }

  // ------------------------------------------------ appending ".0"

  ghost predicate StopsAt(s: string, j: nat) { j < |s| ==> !IsDigit(s[j]) && !GroupAt(s, j) }

  /** The token is the dotted number at the first digit that nothing continues. */
  lemma TokenIsUnique(s: string, i: nat, j: nat)
    requires i < j <= |s| && (forall k | 0 <= k < i :: !IsDigit(s[k])) && IsDotted(s[i..j]) && StopsAt(s, j)
    ensures NumToken(s) == s[i..j]
  {
    var i0, j0 := NumTokenIsLeftmostLongest(s);
    assert DottedAt(s[i..j], 0) && s[i..j][0] == s[i];
    assert i0 < |s| ==> DottedAt(s[i0..j0], 0) && s[i0..j0][0] == s[i0];
    assert i0 == i;
    forall j' | j < j' <= |s|
      ensures !IsDotted(s[i..j'])
    {
      NothingBeyond(s, i, j, j');
    }
  }

  lemma NothingBeyond(s: string, i: nat, j: nat, j': nat)
    requires i < j < j' <= |s| && StopsAt(s, j)
    ensures !IsDotted(s[i..j'])
  {
    var t := s[i..j'];
    assert t[j - i] == s[j];
    if j + 1 < j' { assert t[j + 1 - i] == s[j + 1]; }
    assert !DottedAt(t, j - i);
  }

  lemma TokenStops(s: string) returns (i: nat, j: nat)
    requires HasDigit(s)
    ensures i < j <= |s| && (forall k | 0 <= k < i :: !IsDigit(s[k])) && IsDotted(s[i..j]) && StopsAt(s, j)
    ensures NumToken(s) == s[i..j]
  {
    i, j := NumTokenIsLeftmostLongest(s);
    if j < |s| && IsDigit(s[j]) { DottedGrows(s, i, j, j + 1); }
    if j < |s| && GroupAt(s, j) { DottedGrows(s, i, j, j + 2); }
  }

  lemma DottedGrows(s: string, i: nat, j: nat, e: nat)
    requires i < j < e <= |s| && IsDotted(s[i..j])
    requires (e == j + 1 && IsDigit(s[j])) || (e == j + 2 && GroupAt(s, j))
    ensures IsDotted(s[i..e])
  {
    var t, u := s[i..j], s[i..e];
    assert forall k | 0 <= k < |t| :: u[k] == t[k];
    assert DottedAt(t, |t| - 1);
    forall k | 0 <= k < |u|
      ensures DottedAt(u, k)
    {
      if k < |t| { assert DottedAt(t, k); }
    }
  }

  const DOT_ZERO := ".0"

  /** Behind a text whose token ends it, the suffix continues the token; elsewhere it changes nothing. */
  lemma TokenOfSuffixed(s: string, b: string)
    requires AllSpace(b) && HasDigit(s)
    ensures NumToken(s + b + DOT_ZERO) == NumToken(s) || NumToken(s + b + DOT_ZERO) == NumToken(s) + DOT_ZERO
  {
    hide NumToken, IsDotted;
    var i, j := TokenStops(s);
    if j == |s| && b == "" {
      assert s + b + DOT_ZERO == s + DOT_ZERO;
      assert s[i..j] == s[i..];
      TokenExtended(s, i);
    } else {
      SuffixStops(s, b, j);
      TokenKept(s, b + DOT_ZERO, i, j);
      assert s + b + DOT_ZERO == s + (b + DOT_ZERO);
    }
  }

  lemma TokenExtended(s: string, i: nat)
    requires i < |s| && (forall k | 0 <= k < i :: !IsDigit(s[k])) && IsDotted(s[i..])
    ensures NumToken(s + DOT_ZERO) == s[i..] + DOT_ZERO
  {
    hide NumToken;
    var w := s + DOT_ZERO;
    assert w[i..|s|] == s[i..] && w[|s|] == '.' && w[|s| + 1] == '0';
    assert forall k | 0 <= k < i :: w[k] == s[k];
    DottedGrows(w, i, |s|, |w|);
    hide IsDotted;
    TokenIsUnique(w, i, |w|);
    assert w[i..|w|] == s[i..] + DOT_ZERO;
  }

  lemma TokenKept(s: string, more: string, i: nat, j: nat)
    requires i < j <= |s| && (forall k | 0 <= k < i :: !IsDigit(s[k])) && IsDotted(s[i..j]) && StopsAt(s + more, j)
    ensures NumToken(s + more) == s[i..j]
  {
    hide NumToken, IsDotted, StopsAt;
    var w := s + more;
    assert forall k | 0 <= k < i :: w[k] == s[k];
    assert w[i..j] == s[i..j];
    TokenIsUnique(w, i, j);
  }

  lemma SuffixStops(s: string, b: string, j: nat)
    requires AllSpace(b) && j <= |s| && StopsAt(s, j) && (j < |s| || b != "")
    ensures StopsAt(s + (b + DOT_ZERO), j)
  {
    var w, more := s + (b + DOT_ZERO), b + DOT_ZERO;
    assert w[j] == if j < |s| then s[j] else b[0];
    assert w[j + 1] == if j + 1 < |s| then s[j + 1] else more[j + 1 - |s|];
    assert more[0] == if b == "" then '.' else b[0];
  }

  lemma SplitDotZero(t: string)
    ensures Split(t + DOT_ZERO, '.') == Split(t, '.') + ["0"]
  {
    hide Split;
    SplitSnoc(t, '.', "0");
    assert t + DOT_ZERO == t + ['.'] + "0";
  }

  lemma {:induction false} NumbersOfSnocZero(parts: seq<string>)
    ensures Numbers(parts + ["0"]) == Numbers(parts) || Numbers(parts + ["0"]) == Numbers(parts) + [0]
    ensures parts != [] && Numbers(parts) == [] ==> Numbers(parts + ["0"]) == []
  {
    if parts == [] {
      NumbersOfZero();
      assert parts + ["0"] == ["0"];
    } else {
      hide Atoi;
      NumbersOfSnocZero(parts[1..]);
      assert (parts + ["0"])[1..] == parts[1..] + ["0"];
    }
  }

  lemma ParseOfToken(tok: string)
    requires tok != ""
    ensures var x, y := Numbers(Split(tok, '.')), Numbers(Split(tok + DOT_ZERO, '.'));
      (x == [] ==> y == []) && (y == x || y == x + [0])
  {
    SplitDotZero(tok);
    NumbersOfSnocZero(Split(tok, '.'));
  }

  lemma TrimSuffixed(s: string) returns (b: string)
    requires HasDigit(s)
    ensures AllSpace(b) && Trim(s + DOT_ZERO) == Trim(s) + b + DOT_ZERO && HasDigit(Trim(s))
  {
    hide Trim, AllSpace;
    var a: string;
    a, b := TrimParts(s);
    DigitInCore(a, Trim(s), b);
    CoreSuffixed(a, Trim(s), b);
  }

  lemma CoreSuffixed(a: string, t: string, b: string)
    requires AllSpace(a) && Trimmed(t) && t != ""
    ensures Trim(a + t + b + DOT_ZERO) == t + b + DOT_ZERO
  {
    hide Trim;
    var m := t + b + DOT_ZERO;
    assert m[0] == t[0] && m[|m| - 1] == '0';
    TrimUnique(a, m, "");
    assert a + t + b + DOT_ZERO == a + m + "";
  }

  lemma DigitInCore(a: string, t: string, b: string)
    requires AllSpace(a) && AllSpace(b) && HasDigit(a + t + b)
    ensures HasDigit(t)
  {
    var s := a + t + b;
    assert forall i | 0 <= i < |a| :: s[i] == a[i];
    assert forall i | 0 <= i < |b| :: s[|a| + |t| + i] == b[i];
    assert forall i | |a| + |t| <= i < |s| :: s[i] == b[i - |a| - |t|];
    var k :| 0 <= k < |s| && IsDigit(s[k]);
    assert t[k - |a|] == s[k];
  }

  ghost predicate HasDigit(s: string) { exists k :: 0 <= k < |s| && IsDigit(s[k]) }

  lemma ParseSuffixed(found: string)
    requires HasDigit(found)
    ensures Parse(found).None? ==> Parse(found + DOT_ZERO).None?
    ensures Parse(found).Some? ==>
              Parse(found + DOT_ZERO) == Parse(found) || Parse(found + DOT_ZERO) == Some(Parse(found).value + [0])
  {
    hide Trim, NumToken, Split, Numbers;
    var b := TrimSuffixed(found);
    TokenOfSuffixed(Trim(found), b);
    var i, j := TokenStops(Trim(found));
    ParseOfToken(NumToken(Trim(found)));
  }

  lemma NoDigitUnreadable(found: string)
    requires !HasDigit(found)
    ensures Parse(found) == None && Parse(found + DOT_ZERO) == Some([0])
  {
    var a, b := TrimParts(found);
    var t := Trim(found);
    assert forall k | 0 <= k < |t| :: t[k] == found[|a| + k];
    var i, j := NumTokenIsLeftmostLongest(t);
    SuffixAlone(found);
  }

  lemma SuffixAlone(found: string)
    requires !HasDigit(found)
    ensures Parse(found + DOT_ZERO) == Some([0])
  {
    hide Trim, NumToken, Numbers, Split, HasDigit;
    var w := TrimOfSuffixAlone(found);
    SuffixToken(w);
    NumbersOfZero();
  }

  lemma TrimOfSuffixAlone(found: string) returns (pre: string)
    requires !HasDigit(found)
    ensures Trim(found + DOT_ZERO) == pre + DOT_ZERO && !HasDigit(pre)
  {
    hide Trim;
    var n := SkipSpaces(found, 0);
    pre := found[n..];
    assert forall k | 0 <= k < |pre| :: pre[k] == found[n + k];
    var w := pre + DOT_ZERO;
    assert w[|w| - 1] == '0' && w[0] == if n < |found| then found[n] else '.';
    TrimUnique(found[..n], w, "");
    assert found + DOT_ZERO == found[..n] + w + "";
  }

  lemma SuffixToken(pre: string)
    requires !HasDigit(pre)
    ensures NumToken(pre + DOT_ZERO) == "0"
  {
    hide NumToken;
    assert pre + DOT_ZERO == (pre + ".") + "0";
    assert forall k | 0 <= k < |pre + "."| :: !IsDigit((pre + ".")[k]);
    assert DottedAt("0", 0);
    NumTokenWhole(pre + ".", "0");
  }

  lemma NumbersOfZero()
    ensures Split("0", '.') == ["0"] && Numbers(["0"]) == [0]
  {
    AtoiDigits("0");
    assert "0"[..0] == "" && DigitValue('0') == 0;
    assert Atoi("0") == Some(0);
    assert IndexByte("0", '.') < 0;
    assert ["0"][1..] == [];
  }

  /** Reading "1.2.0" for "1.2" never changes an answer, whatever the text around, as long as it has a digit. */
  lemma AppendingDotZeroIsInvisible(found: string)
    ensures (forall requirement :: Check(found + DOT_ZERO, requirement) == Check(found, requirement)) <==>
              HasDigit(found)
  {
    hide Parse, CheckAll, Comparators, HasDigit;
    if HasDigit(found) {
      ParseSuffixed(found);
      forall requirement
        ensures Check(found + DOT_ZERO, requirement) == Check(found, requirement)
      {
        if Parse(found).Some? { AppendZeroKeepsCheckAll(Parse(found).value, Comparators(requirement)); }
      }
    } else {
      NoDigitUnreadable(found);
      EmptyRequirement([0]);
      assert Check(found + DOT_ZERO, "") != Check(found, "");
    }
  }

  lemma EmptyRequirement(v: seq<int>)
    ensures CheckAll(v, Comparators("")) == CheckResult(true, true)
  {
    ComparatorsOfJoin([]);
  }

  // -------------------------------------------------- order of comparators

  lemma {:induction false} JoinOfWordsTrimmed(words: seq<string>)
    requires forall k | 0 <= k < |words| :: IsWord(words[k])
    ensures Trimmed(Join(words, " ")) && (words != [] ==> Join(words, " ") != "")
  {
    if |words| > 1 {
      JoinOfWordsTrimmed(words[1..]);
      var j := Join(words, " ");
      assert j == words[0] + (" " + Join(words[1..], " "));
      assert j[0] == words[0][0];
      assert j[|j| - 1] == Join(words[1..], " ")[|Join(words[1..], " ")| - 1];
    }
  }

  lemma ComparatorsOfJoin(words: seq<string>)
    requires forall k | 0 <= k < |words| :: IsWord(words[k])
    ensures Comparators(Join(words, " ")) == words
  {
    JoinOfWordsTrimmed(words);
    TrimOfTrimmed(Join(words, " "));
    FieldsOfJoin(words);
  }

  lemma AcceptsIgnoresOrder(xs: seq<string>, ys: seq<string>, v: seq<int>)
    requires multiset(xs) == multiset(ys)
    ensures Accepts(xs, v) ==> Accepts(ys, v)
  {
    if Accepts(xs, v) {
      forall k | 0 <= k < |ys|
        ensures EvalComparator(v, ys[k]) == Holds
      {
        assert ys[k] in multiset(ys);
        assert ys[k] in xs;
      }
    }
  }

  /** Writing the comparators in another order never changes OK. */
  lemma OkIgnoresComparatorOrder(found: string, xs: seq<string>, ys: seq<string>)
    requires forall k | 0 <= k < |xs| :: IsWord(xs[k])
    requires multiset(xs) == multiset(ys)
    ensures Check(found, Join(xs, " ")).ok == Check(found, Join(ys, " ")).ok
  {
    forall k | 0 <= k < |ys|
      ensures IsWord(ys[k])
    {
      assert ys[k] in multiset(ys);
      assert ys[k] in xs;
    }
    ComparatorsOfJoin(xs);
    ComparatorsOfJoin(ys);
    CheckOkIsConjunction(found, Join(xs, " "));
    CheckOkIsConjunction(found, Join(ys, " "));
    if Parse(found).Some? {
      AcceptsIgnoresOrder(xs, ys, Parse(found).value);
      AcceptsIgnoresOrder(ys, xs, Parse(found).value);
    }
  }

  /** Some comparator fails while another cannot be read. */
  ghost predicate Clash(v: seq<int>, xs: seq<string>) {
    && (exists i :: 0 <= i < |xs| && EvalComparator(v, xs[i]) == Fails)
    && (exists j :: 0 <= j < |xs| && EvalComparator(v, xs[j]) == Unreadable)
  }

  ghost predicate AllReadable(v: seq<int>, xs: seq<string>) {
    forall k | 0 <= k < |xs| :: EvalComparator(v, xs[k]) != Unreadable
  }

  /** Without a clash, Parsed means every comparator is readable. */
  lemma ParsedWithoutClash(v: seq<int>, xs: seq<string>)
    requires !Clash(v, xs)
    ensures CheckAll(v, xs).parsed <==> AllReadable(v, xs)
  {
    hide EvalComparator, CheckAll;
    var k := CheckStopsAt(v, xs);
    assert forall i | 0 <= i < k :: xs[..k][i] == xs[i];
  }

  lemma ClashIgnoresOrder(v: seq<int>, xs: seq<string>, ys: seq<string>)
    requires multiset(xs) == multiset(ys)
    ensures Clash(v, xs) ==> Clash(v, ys)
    ensures AllReadable(v, xs) ==> AllReadable(v, ys)
  {
    hide EvalComparator;
    SameElements(xs, ys);
    SameElements(ys, xs);
    if Clash(v, xs) {
      var i :| 0 <= i < |xs| && EvalComparator(v, xs[i]) == Fails;
      var j :| 0 <= j < |xs| && EvalComparator(v, xs[j]) == Unreadable;
      assert xs[i] in ys && xs[j] in ys;
    }
    assert forall k | 0 <= k < |ys| :: ys[k] in xs;
  }

  lemma SameElements(xs: seq<string>, ys: seq<string>)
    requires multiset(xs) == multiset(ys)
    ensures forall k | 0 <= k < |ys| :: ys[k] in xs
  {
    forall k | 0 <= k < |ys|
      ensures ys[k] in xs
    {
      assert ys[k] in multiset(ys);
    }
  }

  function ToFront(xs: seq<string>, i: nat): seq<string>
    requires i < |xs|
  {
    [xs[i]] + xs[..i] + xs[i + 1..]
  }

  lemma FrontDecides(v: seq<int>, xs: seq<string>, i: nat)
    requires i < |xs| && EvalComparator(v, xs[i]) != Holds
    ensures multiset(ToFront(xs, i)) == multiset(xs)
    ensures CheckAll(v, ToFront(xs, i)).parsed == (EvalComparator(v, xs[i]) == Fails)
  {
    hide EvalComparator;
    assert xs == xs[..i] + [xs[i]] + xs[i + 1..];
  }

  ghost predicate AllWords(xs: seq<string>) { forall k | 0 <= k < |xs| :: IsWord(xs[k]) }

  lemma CheckOfWords(found: string, xs: seq<string>)
    requires Parse(found).Some? && AllWords(xs)
    ensures Check(found, Join(xs, " ")) == CheckAll(Parse(found).value, xs)
  {
    ComparatorsOfJoin(xs);
  }

  lemma WordsIgnoreOrder(xs: seq<string>, ys: seq<string>)
    requires AllWords(xs) && multiset(xs) == multiset(ys)
    ensures AllWords(ys)
  {
    SameElements(xs, ys);
  }

  /** Every order of the comparators gives the same Parsed. */
  ghost predicate ParsedIgnoresOrder(found: string, xs: seq<string>) {
    forall ys :: multiset(ys) == multiset(xs) ==>
      Check(found, Join(ys, " ")).parsed == Check(found, Join(xs, " ")).parsed
  }

  /**
   Parsed does not depend on how the comparators are ordered exactly when no readable version
   meets both a comparator that fails and one that is unreadable: the one in front hides the other.
   */
  lemma ParsedDependsOnOrder(found: string, xs: seq<string>)
    requires AllWords(xs)
    ensures ParsedIgnoresOrder(found, xs) <==> !(Parse(found).Some? && Clash(Parse(found).value, xs))
  {
    hide Parse, CheckAll, Comparators, Join, EvalComparator, AllReadable, ToFront, AllWords;
    if Parse(found).Some? {
      var v := Parse(found).value;
      if Clash(v, xs) {
        var i :| 0 <= i < |xs| && EvalComparator(v, xs[i]) == Fails;
        var j :| 0 <= j < |xs| && EvalComparator(v, xs[j]) == Unreadable;
        var ys, zs := ToFront(xs, i), ToFront(xs, j);
        FrontDecides(v, xs, i);
        FrontDecides(v, xs, j);
        WordsIgnoreOrder(xs, ys);
        WordsIgnoreOrder(xs, zs);
        CheckOfWords(found, ys);
        CheckOfWords(found, zs);
        assert Check(found, Join(ys, " ")).parsed != Check(found, Join(zs, " ")).parsed;
      } else {
        forall ys | multiset(ys) == multiset(xs)
          ensures Check(found, Join(ys, " ")).parsed == Check(found, Join(xs, " ")).parsed
        {
          SameParsed(found, xs, ys);
        }
      }
    }
  }

  lemma SameParsed(found: string, xs: seq<string>, ys: seq<string>)
    requires AllWords(xs) && multiset(ys) == multiset(xs) && Parse(found).Some? && !Clash(Parse(found).value, xs)
    ensures Check(found, Join(ys, " ")).parsed == Check(found, Join(xs, " ")).parsed
  {
    hide Parse, Check, CheckAll, Comparators, Join, EvalComparator, AllReadable, Clash, AllWords;
    var v := Parse(found).value;
    WordsIgnoreOrder(xs, ys);
    CheckOfWords(found, xs);
    CheckOfWords(found, ys);
    ClashIgnoresOrder(v, ys, xs);
    ClashIgnoresOrder(v, xs, ys);
    ParsedWithoutClash(v, xs);
    ParsedWithoutClash(v, ys);
  }

  /** The order does matter for found "5" with the comparators ">=7" and "x". */
  lemma ParsedOrderWitness()
    ensures AllWords([">=7", "x"]) && !ParsedIgnoresOrder("5", [">=7", "x"])
  {
    hide EvalComparator, Parse, ParsedIgnoresOrder, CompareN, FormatVersion, IsWord;
    FiveBelowSeven();
    FiveAndSeven();
    TooLow([5], [7]);
    UnreadableWord([5]);
    WordX();
    ClashOfTwo([5], ">=7", "x");
    ParsedDependsOnOrder("5", [">=7", "x"]);
  }

  lemma FiveAndSeven()
    ensures FormatVersion([5]) == "5" && OpText(Ge) + FormatVersion([7]) == ">=7"
  {
    assert FormatNat(5) == "5" && FormatNat(7) == "7";
    OnePart(5);
    OnePart(7);
  }

  lemma OnePart(n: nat)
    ensures FormatVersion([n]) == FormatNat(n)
  {
    hide FormatNat;
    assert FormatParts([n]) == [FormatNat(n)];
  }

  lemma FiveBelowSeven()
    ensures CompareN([5], [7], 1) < 0
  {
  }

  lemma WordX()
    ensures IsWord("x")
  {
  }

  lemma ClashOfTwo(v: seq<int>, low: string, junk: string)
    requires EvalComparator(v, low) == Fails && EvalComparator(v, junk) == Unreadable
    ensures Clash(v, [low, junk])
  {
    hide EvalComparator;
    assert [low, junk][0] == low && [low, junk][1] == junk;
  }

  /** A printed version below another fails the comparator that asks for at least the other. */
  lemma TooLow(a: seq<nat>, b: seq<nat>)
    requires Printable(a) && Printable(b) && CompareN(a, b, |b|) < 0
    ensures Parse(FormatVersion(a)) == Some(a)
    ensures var low := OpText(Ge) + FormatVersion(b); IsWord(low) && EvalComparator(a, low) == Fails
  {
    VersionTextRoundTrip(Bare, a);
    EvalOfNumbers(a, Ge, b);
    ComparatorIsWord(Ge, b);
  }

  /** A printed comparator asks exactly about the sign of the comparison with its numbers. */
  lemma EvalOfNumbers(found: seq<int>, op: Op, nums: seq<nat>)
    requires Printable(nums)
    ensures EvalComparator(found, OpText(op) + FormatVersion(nums)) == DecideOp(op, CompareN(found, nums, |nums|))
  {
    VersionTextRoundTrip(op, nums);
  }

  lemma ComparatorIsWord(op: Op, nums: seq<nat>)
    requires nums != []
    ensures IsWord(OpText(op) + FormatVersion(nums))
  {
    hide *;
    FormatVersionIsDotted(nums);
    DottedHasNoSpace(FormatVersion(nums));
    AfterOpIsWord(op, FormatVersion(nums));
  }

  lemma AfterOpIsWord(op: Op, v: string)
    requires IsDotted(v) && NoSpace(v)
    ensures IsWord(OpText(op) + v)
  {
    hide IsDotted;
    var s := OpText(op) + v;
    assert forall k | 0 <= k < |s| :: s[k] == if k < |OpText(op)| then OpText(op)[k] else v[k - |OpText(op)|];
    DottedNotEmpty(v);
  }

  lemma DottedNotEmpty(v: string)
    requires IsDotted(v)
    ensures v != ""
  {
  }

  lemma UnreadableWord(v: seq<int>)
    ensures EvalComparator(v, "x") == Unreadable
  {
    hide Trim, CompareN;
    TrimOfTrimmed("x");
    NoDigitInX();
  }

  lemma NoDigitInX()
    ensures Parse("x") == None
  {
    assert FirstDigit("x", 0) == 1;
  }

  lemma DottedHasNoSpace(t: string)
    requires IsDotted(t)
    ensures NoSpace(t)
  {
    forall k | 0 <= k < |t|
      ensures !IsSpace(t[k])
    {
      assert DottedAt(t, k);
    }
  }
}
