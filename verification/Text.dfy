/**
 The string-library functions the program leans on, over ASCII text: trimming,
 searching, splitting, joining, and reading a file line by line.
 */
module Text {
  predicate IsSpace(c: char) {
    c == ' ' || c == '\t' || c == '\n' || c == '\r' || c == '\U{000B}' || c == '\U{000C}'
  }

  /** Nothing but white space. */
  predicate AllSpace(s: string) { forall i | 0 <= i < |s| :: IsSpace(s[i]) }

  predicate NoSpace(s: string) { forall i | 0 <= i < |s| :: !IsSpace(s[i]) }

  // -------------------------------------------------------------- trimming

  /** The first position from i on that is not white space. */
  function SkipSpaces(s: string, i: nat): (n: nat)
    requires i <= |s|
    ensures i <= n <= |s| && (n < |s| ==> !IsSpace(s[n]))
    ensures forall k | i <= k < n :: IsSpace(s[k])
    decreases |s| - i
  {
    if i < |s| && IsSpace(s[i]) then SkipSpaces(s, i + 1) else i
  }

  /** The last position up to j that has no white space before it. */
  function BackOverSpaces(s: string, j: nat): (n: nat)
    requires j <= |s|
    ensures n <= j && (n > 0 ==> !IsSpace(s[n - 1]))
    ensures forall k | n <= k < j :: IsSpace(s[k])
  {
    if j > 0 && IsSpace(s[j - 1]) then BackOverSpaces(s, j - 1) else j
  }

  function TrimLeft(s: string): string { s[SkipSpaces(s, 0)..] }

  function TrimRight(s: string): string { s[..BackOverSpaces(s, |s|)] }

  function Trim(s: string): string { TrimRight(TrimLeft(s)) }

  /** Text that trimming leaves alone. */
  predicate Trimmed(s: string) { s != "" ==> !IsSpace(s[0]) && !IsSpace(s[|s| - 1]) }

  lemma TrimLeftUnique(s: string, k: nat)
    requires k <= |s| && (k < |s| ==> !IsSpace(s[k]))
    requires forall i | 0 <= i < k :: IsSpace(s[i])
    ensures TrimLeft(s) == s[k..]
  {
    assert SkipSpaces(s, 0) == k;
  }

  lemma TrimRightUnique(s: string, k: nat)
    requires k <= |s| && (k > 0 ==> !IsSpace(s[k - 1]))
    requires forall i | k <= i < |s| :: IsSpace(s[i])
    ensures TrimRight(s) == s[..k]
  {
    assert BackOverSpaces(s, |s|) == k;
  }

  /** Trimming peels exactly the surrounding white space, however the text was assembled. */
  lemma TrimUnique(a: string, m: string, b: string)
    requires AllSpace(a) && AllSpace(b) && Trimmed(m)
    ensures Trim(a + m + b) == m
  {
    var s := a + m + b;
    if m == "" {
      assert forall i | 0 <= i < |s| :: s[i] == if i < |a| then a[i] else b[i - |a|];
      TrimLeftUnique(s, |s|);
    } else {
      assert forall i | 0 <= i < |a| :: s[i] == a[i];
      assert s[|a|] == m[0];
      TrimLeftUnique(s, |a|);
      var l := s[|a|..];
      assert l == m + b;
      assert l[|m| - 1] == m[|m| - 1];
      assert forall i | |m| <= i < |l| :: l[i] == b[i - |m|];
      TrimRightUnique(l, |m|);
    }
  }

  /** How a text sits around its trimmed core. */
  lemma TrimParts(s: string) returns (a: string, b: string)
    ensures s == a + Trim(s) + b && AllSpace(a) && AllSpace(b) && Trimmed(Trim(s))
  {
    var k := SkipSpaces(s, 0);
    var l := s[k..];
    var n := BackOverSpaces(l, |l|);
    a, b := s[..k], l[n..];
    CoreTrimmed(s, k, n);
    hide *;
    ThreeParts(s, k, n);
  }

  lemma CoreTrimmed(s: string, k: nat, n: nat)
    requires k == SkipSpaces(s, 0) && n == BackOverSpaces(s[k..], |s| - k)
    ensures Trim(s) == s[k..][..n] && Trimmed(Trim(s)) && AllSpace(s[..k]) && AllSpace(s[k..][n..])
  {
    var l := s[k..];
    assert n > 0 ==> l[..n][0] == s[k] && l[..n][n - 1] == l[n - 1];
  }

  lemma ThreeParts(s: string, k: nat, n: nat)
    requires k <= |s| && n <= |s| - k
    ensures s == s[..k] + s[k..][..n] + s[k..][n..]
  {
    var l := s[k..];
    assert l == l[..n] + l[n..];
    assert s == s[..k] + l;
  }

  lemma TrimOfTrimmed(s: string)
    requires Trimmed(s)
    ensures Trim(s) == s
  {
    TrimUnique("", s, "");
    assert "" + s + "" == s;
  }

  lemma TrimAfterTrimLeft(s: string)
    ensures Trim(TrimLeft(s)) == Trim(s)
  {
    var l := TrimLeft(s);
    assert SkipSpaces(l, 0) == 0;
    assert l[0..] == l;
  }

  /** Trimming leaves at most what trimming on the right alone leaves. */
  lemma TrimNoLonger(s: string)
    ensures |Trim(s)| <= |s|
  {
    hide Trim;
    var a, b := TrimParts(s);
  }

  predicate HasSuffix(s: string, p: string) { |p| <= |s| && s[|s| - |p|..] == p }

  function TrimPrefix(s: string, p: string): string { if p <= s then s[|p|..] else s }

  function IndexByteFrom(s: string, c: char, i: nat): (r: int)
    requires i <= |s|
    ensures r == -1 || i <= r < |s|
    ensures r >= 0 ==> s[r] == c && forall k | i <= k < r :: s[k] != c
    ensures r < 0 ==> forall k | i <= k < |s| :: s[k] != c
    decreases |s| - i
  {
    if i == |s| then -1 else if s[i] == c then i else IndexByteFrom(s, c, i + 1)
  }

  /** The first position of a character, or -1. */
  function IndexByte(s: string, c: char): (r: int)
    ensures -1 <= r < |s|
    ensures r >= 0 ==> s[r] == c && forall k | 0 <= k < r :: s[k] != c
    ensures r < 0 <==> c !in s
  {
    IndexByteFrom(s, c, 0)
  }

  lemma IndexByteUnique(s: string, c: char, k: nat)
    requires k < |s| && s[k] == c && forall i | 0 <= i < k :: s[i] != c
    ensures IndexByte(s, c) == k
  {
    assert c in s;
  }

  ghost predicate Occurs(s: string, t: string, i: int) { 0 <= i && i + |t| <= |s| && s[i..i + |t|] == t }

  /** The first position of a substring, or -1. */
  function Index(s: string, t: string): (r: int)
    ensures -1 <= r <= |s|
    ensures r >= 0 ==> Occurs(s, t, r) && forall j | 0 <= j < r :: !Occurs(s, t, j)
    ensures r < 0 ==> forall j :: !Occurs(s, t, j)
  {
    if t <= s then 0
    else if s == "" then -1
    else
      var k := Index(s[1..], t);
      assert forall j :: Occurs(s, t, j) ==> j > 0 && Occurs(s[1..], t, j - 1);
      if k < 0 then -1 else k + 1
  }

  /** The last position of a substring, or -1. */
  function LastIndex(s: string, t: string): (r: int)
    ensures -1 <= r <= |s|
    ensures r >= 0 ==> Occurs(s, t, r) && forall j | r < j :: !Occurs(s, t, j)
    ensures r < 0 ==> forall j :: !Occurs(s, t, j)
  {
    if |s| < |t| then -1
    else if s[|s| - |t|..] == t then |s| - |t|
    else if s == "" then -1
    else
      var p := s[..|s| - 1];
      var k := LastIndex(p, t);
      assert forall j :: Occurs(s, t, j) ==> Occurs(p, t, j);
      k
  }

  predicate Contains(s: string, t: string) { Index(s, t) >= 0 }

  lemma ContainsAt(s: string, t: string, i: int)
    requires Occurs(s, t, i)
    ensures Contains(s, t)
  {
  }

  // ------------------------------------------------------------------ case

  function UpperChar(c: char): char {
    if 'a' <= c <= 'z' then ((c as int) - 32) as char else c
  }

  function LowerChar(c: char): char {
    if 'A' <= c <= 'Z' then ((c as int) + 32) as char else c
  }

  function Upper(s: string): (r: string)
    ensures |r| == |s| && forall i | 0 <= i < |s| :: r[i] == UpperChar(s[i])
  {
    seq(|s|, i requires 0 <= i < |s| => UpperChar(s[i]))
  }

  lemma UpperKeeps(s: string)
    requires forall i | 0 <= i < |s| :: !('a' <= s[i] <= 'z')
    ensures Upper(s) == s
  {
  }

  function Lower(s: string): (r: string)
    ensures |r| == |s| && forall i | 0 <= i < |s| :: r[i] == LowerChar(s[i])
  {
    seq(|s|, i requires 0 <= i < |s| => LowerChar(s[i]))
  }

  predicate EqualFold(a: string, b: string) { Lower(a) == Lower(b) }

  /** A term found in part of a name is found in the whole, in upper case too. */
  lemma UpperContainsSlice(s: string, i: nat, j: nat, t: string)
    requires i <= j <= |s| && Contains(Upper(s[i..j]), t)
    ensures Contains(Upper(s), t)
  {
    var u, w := Upper(s[i..j]), Upper(s);
    var k := Index(u, t);
    UpperOfSlice(s, i, j);
    hide Upper;
    SliceOfSlice(w, i, j, k, k + |t|);
    ContainsAt(w, t, i + k);
  }

  lemma UpperOfSlice(s: string, i: nat, j: nat)
    requires i <= j <= |s|
    ensures Upper(s[i..j]) == Upper(s)[i..j]
  {
    hide UpperChar;
  }

  lemma SliceOfSlice(w: string, i: nat, j: nat, k: nat, l: nat)
    requires i <= j <= |w| && k <= l <= j - i
    ensures w[i..j][k..l] == w[i + k..i + l]
  {
    var x, y := w[i..j][k..l], w[i + k..i + l];
    assert |x| == |y| && forall n | 0 <= n < |x| :: x[n] == y[n];
  }

  lemma WindowHasNoSpace(s: string, t: string, k: nat)
    requires NoSpace(t) && Occurs(Upper(s), t, k)
    ensures forall i | k <= i < k + |t| :: !IsSpace(s[i])
  {
    var w := Upper(s);
    forall i | k <= i < k + |t|
      ensures !IsSpace(s[i])
    {
      assert w[i] == w[k..k + |t|][i - k] == t[i - k];
    }
  }

  /** A space-free term found in a name lies inside its trimmed core. */
  lemma OccursInsideCore(a: string, m: string, b: string, t: string, k: nat)
    requires AllSpace(a) && AllSpace(b) && NoSpace(t) && t != ""
    requires Occurs(Upper(a + m + b), t, k)
    ensures |a| <= k && k + |t| <= |a| + |m| && Occurs(Upper(m), t, k - |a|)
  {
    var s := a + m + b;
    WindowHasNoSpace(s, t, k);
    OutsideIsSpace(a, m, b);
    assert !IsSpace(s[k]) && !IsSpace(s[k + |t| - 1]);
    UpperOfCore(a, m, b);
    assert Upper(m)[k - |a|..k - |a| + |t|] == Upper(s)[k..k + |t|];
  }

  lemma OutsideIsSpace(a: string, m: string, b: string)
    requires AllSpace(a) && AllSpace(b)
    ensures var s := a + m + b; forall i | 0 <= i < |s| && (i < |a| || |a| + |m| <= i) :: IsSpace(s[i])
  {
    var s := a + m + b;
    assert forall i | |a| + |m| <= i < |s| :: s[i] == b[i - |a| - |m|];
  }

  lemma UpperOfCore(a: string, m: string, b: string)
    ensures Upper(m) == Upper(a + m + b)[|a|..|a| + |m|]
  {
    var s := a + m + b;
    assert forall i | 0 <= i < |m| :: s[|a| + i] == m[i];
  }

  lemma UpperContainsTrim(s: string, t: string)
    requires NoSpace(t) && t != ""
    ensures Contains(Upper(s), t) <==> Contains(Upper(Trim(s)), t)
  {
    var a, b := TrimParts(s);
    if Contains(Upper(s), t) {
      OccursInsideCore(a, Trim(s), b, t, Index(Upper(s), t));
    }
    if Contains(Upper(Trim(s)), t) {
      assert s[|a|..|a| + |Trim(s)|] == Trim(s);
      UpperContainsSlice(s, |a|, |a| + |Trim(s)|, t);
    }
  }

  // --------------------------------------------------- splitting and joining

  function Split(s: string, sep: char): (parts: seq<string>)
    ensures parts != []
  {
    var i := IndexByte(s, sep);
    if i < 0 then [s] else [s[..i]] + Split(s[i + 1..], sep)
  }

  function Join(parts: seq<string>, sep: string): string {
    if parts == [] then ""
    else if |parts| == 1 then parts[0]
    else parts[0] + sep + Join(parts[1..], sep)
  }

  lemma SplitStep(p: string, sep: char, rest: string)
    requires sep !in p
    ensures Split(p + [sep] + rest, sep) == [p] + Split(rest, sep)
  {
    var s := p + [sep] + rest;
    assert s[..|p|] == p && s[|p|] == sep && s[|p| + 1..] == rest;
    IndexByteUnique(s, sep, |p|);
  }

  lemma SplitWhole(p: string, sep: char)
    requires sep !in p
    ensures Split(p, sep) == [p]
  {
  }

  /** One part more at the end. */
  lemma {:induction false} SplitSnoc(t: string, sep: char, p: string)
    requires sep !in p
    ensures Split(t + [sep] + p, sep) == Split(t, sep) + [p]
  {
    hide *;
    SplitWhole(p, sep);
    var i := IndexByte(t, sep);
    if i < 0 {
      SplitWhole(t, sep);
      SplitStep(t, sep, p);
    } else {
      var x, y := t[..i], t[i + 1..];
      assert t == x + [sep] + y;
      SplitSnoc(y, sep, p);
      SplitStep(x, sep, y);
      SplitStep(x, sep, y + [sep] + p);
      SplitRegroup(x, sep, y, p);
    }
  }

  lemma SplitRegroup(x: string, sep: char, y: string, p: string)
    ensures x + [sep] + y + [sep] + p == x + [sep] + (y + [sep] + p)
  {
  }

  lemma {:induction false} SplitOfJoin(parts: seq<string>, sep: char)
    requires parts != [] && forall k | 0 <= k < |parts| :: sep !in parts[k]
    ensures Split(Join(parts, [sep]), sep) == parts
  {
    if |parts| == 1 {
      assert parts == [parts[0]];
    } else {
      SplitOfJoin(parts[1..], sep);
      SplitStep(parts[0], sep, Join(parts[1..], [sep]));
    }
  }

  function WordEnd(s: string, i: nat): (n: nat)
    requires i <= |s|
    ensures i <= n <= |s| && (n < |s| ==> IsSpace(s[n]))
    ensures forall k | i <= k < n :: !IsSpace(s[k])
    ensures i < |s| && !IsSpace(s[i]) ==> n > i
    decreases |s| - i
  {
    if i < |s| && !IsSpace(s[i]) then WordEnd(s, i + 1) else i
  }

  /** Maximal runs of non-space characters, from position i on. */
  function FieldsFrom(s: string, i: nat): seq<string>
    requires i <= |s|
    decreases |s| - i
  {
    var k := SkipSpaces(s, i);
    if k == |s| then []
    else
      var n := WordEnd(s, k);
      [s[k..n]] + FieldsFrom(s, n)
  }

  function Fields(s: string): seq<string> { FieldsFrom(s, 0) }

  ghost predicate IsWord(s: string) { s != "" && NoSpace(s) }

  /** A word standing at position i, followed by white space or the end, is the next field. */
  lemma FieldsFromWord(s: string, i: nat, w: string)
    requires IsWord(w) && i + |w| <= |s| && s[i..i + |w|] == w
    requires i + |w| < |s| ==> IsSpace(s[i + |w|])
    ensures FieldsFrom(s, i) == [w] + FieldsFrom(s, i + |w|)
  {
    assert forall k | i <= k < i + |w| :: s[k] == w[k - i];
    assert SkipSpaces(s, i) == i;
    assert WordEnd(s, i) == i + |w|;
  }

  lemma JoinWords(words: seq<string>)
    requires words != []
    ensures Join(words, " ") == if |words| == 1 then words[0] else words[0] + (" " + Join(words[1..], " "))
  {
  }

  lemma FieldsAtEnd(s: string)
    ensures FieldsFrom(s, |s|) == []
  {
  }

  lemma SoleField(s: string, i: nat, w: string)
    requires i <= |s| && s[i..] == w && IsWord(w)
    ensures FieldsFrom(s, i) == [w]
  {
    FieldsFromWord(s, i, w);
    FieldsAtEnd(s);
  }

  /** Reading words back from a line of words. */
  lemma {:induction false} FieldsOfJoinFrom(s: string, i: nat, words: seq<string>)
    requires i <= |s| && s[i..] == Join(words, " ")
    requires forall k | 0 <= k < |words| :: IsWord(words[k])
    ensures FieldsFrom(s, i) == words
    decreases |words|
  {
    hide *;
    if |words| <= 1 {
      FieldsOfFew(s, i, words);
    } else {
      var w, tail := words[0], words[1..];
      JoinWords(words);
      FieldsOfMore(s, i, w, Join(tail, " "));
      FieldsOfJoinFrom(s, i + |w| + 1, tail);
      FrontAndTail(FieldsFrom(s, i), words, FieldsFrom(s, i + |w| + 1));
    }
  }

  lemma FieldsOfFew(s: string, i: nat, words: seq<string>)
    requires i <= |s| && s[i..] == Join(words, " ") && |words| <= 1
    requires forall k | 0 <= k < |words| :: IsWord(words[k])
    ensures FieldsFrom(s, i) == words
  {
    if words == [] {
      FieldsAtEnd(s);
    } else {
      SoleField(s, i, words[0]);
    }
  }

  lemma FrontAndTail(r: seq<string>, words: seq<string>, tail: seq<string>)
    requires words != [] && tail == words[1..] && r == [words[0]] + tail
    ensures r == words
  {
  }

  lemma FieldsOfMore(s: string, i: nat, w: string, rest: string)
    requires i <= |s| && s[i..] == w + (" " + rest) && IsWord(w)
    ensures i + |w| + 1 <= |s| && s[i + |w| + 1..] == rest
    ensures FieldsFrom(s, i) == [w] + FieldsFrom(s, i + |w| + 1)
  {
    WordInFront(s, i, w, rest);
    FieldsWordStep(s, i, w);
  }

  lemma FieldsWordStep(s: string, i: nat, w: string)
    requires IsWord(w) && i + |w| < |s| && s[i..i + |w|] == w && s[i + |w|] == ' '
    ensures FieldsFrom(s, i) == [w] + FieldsFrom(s, i + |w| + 1)
  {
    FieldsFromWord(s, i, w);
    FieldsAfterSpace(s, i + |w|);
  }

  lemma WordInFront(s: string, i: nat, w: string, rest: string)
    requires i <= |s| && s[i..] == w + (" " + rest)
    ensures i + |w| < |s| && s[i..i + |w|] == w && s[i + |w|] == ' ' && s[i + |w| + 1..] == rest
  {
    var j := i + |w|;
    assert s[i..j] == s[i..][..|w|] == w;
    assert s[j] == s[i..][|w|] == ' ';
    assert s[j + 1..] == s[i..][|w| + 1..] == rest;
  }

  lemma FieldsAfterSpace(s: string, j: nat)
    requires j < |s| && IsSpace(s[j])
    ensures FieldsFrom(s, j) == FieldsFrom(s, j + 1)
  {
    assert SkipSpaces(s, j) == SkipSpaces(s, j + 1);
  }

  lemma FieldsOfJoin(words: seq<string>)
    requires forall k | 0 <= k < |words| :: IsWord(words[k])
    ensures Fields(Join(words, " ")) == words
  {
    FieldsOfJoinFrom(Join(words, " "), 0, words);
  }

  // ----------------------------------------------------------------- lines

  function DropCR(s: string): string {
    if s != "" && s[|s| - 1] == '\r' then s[..|s| - 1] else s
  }

  /** The lines a bufio.Scanner yields: no final empty line, one trailing CR dropped. */
  function Lines(s: string): seq<string> {
    if s == "" then []
    else
      var i := IndexByte(s, '\n');
      if i < 0 then [DropCR(s)] else [DropCR(s[..i])] + Lines(s[i + 1..])
  }

  lemma TrimDropCR(s: string)
    ensures Trim(DropCR(s)) == Trim(s)
  {
    var d := DropCR(s);
    var a, b := TrimParts(d);
    var m := Trim(d);
    if d != s {
      assert s == a + m + (b + "\r");
      TrimUnique(a, m, b + "\r");
    }
  }

  /** Every line written back, each with its newline. */
  function Unlines(lines: seq<string>): string {
    if lines == [] then "" else lines[0] + "\n" + Unlines(lines[1..])
  }

  predicate Terminated(s: string) { s == "" || s[|s| - 1] == '\n' }

  predicate OneLine(s: string) { forall i | 0 <= i < |s| :: s[i] != '\n' }

  lemma OneLineSlice(s: string, i: nat, j: nat)
    requires OneLine(s) && i <= j <= |s|
    ensures OneLine(s[i..j])
  {
  }

  lemma LinesStep(l: string, rest: string)
    requires OneLine(l)
    ensures Lines(l + "\n" + rest) == [DropCR(l)] + Lines(rest)
  {
    var s := l + "\n" + rest;
    assert s[..|l|] == l && s[|l|] == '\n' && s[|l| + 1..] == rest;
    IndexByteUnique(s, '\n', |l|);
  }

  /** A line that ends the Windows way reads as the same line, and one carriage return of several is dropped. */
  lemma CarriageReturnDropped(l: string, rest: string)
    requires OneLine(l)
    ensures Lines(l + "\r\n" + rest) == [l] + Lines(rest) && Lines(l + "\r") == [l]
  {
    hide *;
    var c := l + "\r";
    EndsWithReturn(l);
    LinesStep(c, rest);
    assert "\r" + "\n" == "\r\n";
    assert c + "\n" + rest == l + "\r\n" + rest;
  }

  lemma EndsWithReturn(l: string)
    requires OneLine(l)
    ensures OneLine(l + "\r") && DropCR(l + "\r") == l && Lines(l + "\r") == [l]
  {
    assert (l + "\r")[..|l|] == l;
    assert '\n' !in l + "\r";
  }

  lemma TerminatedSplit(a: string) returns (l: string, rest: string)
    requires a != "" && Terminated(a)
    ensures a == l + "\n" + rest && OneLine(l) && Terminated(rest) && |rest| < |a|
  {
    assert a[|a| - 1] in a;
    var i := IndexByte(a, '\n');
    l, rest := a[..i], a[i + 1..];
  }

  /** Appending to a file that ends its last line only adds lines. */
  lemma {:induction false} LinesAppend(a: string, b: string)
    requires Terminated(a)
    ensures Lines(a + b) == Lines(a) + Lines(b)
    decreases |a|
  {
    hide *;
    if a == "" {
      assert a + b == b;
      NothingWritten();
      assert [] + Lines(b) == Lines(b);
    } else {
      var l, rest := TerminatedSplit(a);
      LinesStep(l, rest);
      LinesStep(l, rest + b);
      LinesAppend(rest, b);
      RegroupParts(l, rest, b);
      assert [DropCR(l)] + (Lines(rest) + Lines(b)) == [DropCR(l)] + Lines(rest) + Lines(b);
    }
  }

  lemma RegroupParts(l: string, rest: string, b: string)
    ensures l + "\n" + rest + b == l + "\n" + (rest + b)
  {
  }

  lemma {:induction false} LinesOfUnlines(lines: seq<string>)
    requires forall k | 0 <= k < |lines| :: OneLine(lines[k])
    ensures |Lines(Unlines(lines))| == |lines|
    ensures forall i | 0 <= i < |lines| :: Lines(Unlines(lines))[i] == DropCR(lines[i])
    ensures Terminated(Unlines(lines))
  {
    hide *;
    if lines == [] {
      NothingWritten();
    } else {
      var rest := lines[1..];
      LinesOfUnlines(rest);
      FirstLineWritten(lines);
      LinesStep(lines[0], Unlines(rest));
      TerminatedBehind(lines[0], Unlines(rest));
      assert forall i | 1 <= i < |lines| :: lines[i] == rest[i - 1];
    }
  }

  lemma NothingWritten()
    ensures Unlines([]) == "" && Lines("") == [] && Terminated("")
  {
  }

  lemma FirstLineWritten(lines: seq<string>)
    requires lines != []
    ensures Unlines(lines) == lines[0] + "\n" + Unlines(lines[1..])
  {
  }

  lemma TerminatedBehind(l: string, rest: string)
    requires Terminated(rest)
    ensures Terminated(l + "\n" + rest)
  {
    var s := l + "\n" + rest;
    assert s[|s| - 1] == if rest == "" then '\n' else rest[|rest| - 1];
  }

  lemma {:induction false} LinesAreOneLine(s: string)
    ensures forall k | 0 <= k < |Lines(s)| :: OneLine(Lines(s)[k])
  {
    if s != "" {
      var i := IndexByte(s, '\n');
      if i < 0 {
        assert forall k | 0 <= k < |s| :: s[k] in s;
      } else {
        LinesAreOneLine(s[i + 1..]);
      }
    }
  }

  lemma UnlinesSnoc(lines: seq<string>, l: string)
    ensures Unlines(lines + [l]) == Unlines(lines) + l + "\n"
  {
    if lines == [] {
      assert [] + [l] == [l];
      assert [l][1..] == [];
    } else {
      assert (lines + [l])[1..] == lines[1..] + [l];
      UnlinesSnoc(lines[1..], l);
    }
  }
}
