/** What "letter case ignored" and "holds a word" mean, letter by letter. */
module Spelling {
  import opened Text
  import opened EnvText

  /** The same letter in either case, or the same character. */
  ghost predicate SameLetter(c: char, l: char) {
    || c == l
    || ('a' <= l <= 'z' && (c as int) + 32 == (l as int))
    || ('A' <= l <= 'Z' && (c as int) == (l as int) + 32)
  }

  /** The text spells the word from position i on. */
  ghost predicate SpelledAt(s: string, w: string, i: int) {
    0 <= i && i + |w| <= |s| && forall k | 0 <= k < |w| :: SameLetter(s[i + k], w[k])
  }

  ghost predicate Spelled(s: string, w: string) { |s| == |w| && SpelledAt(s, w, 0) }

  ghost predicate Mentions(s: string, w: string) { exists i :: SpelledAt(s, w, i) }

  lemma LowerSame(c: char, l: char)
    ensures LowerChar(c) == LowerChar(l) <==> SameLetter(c, l)
    ensures !('A' <= l <= 'Z') ==> (LowerChar(c) == l <==> SameLetter(c, l))
  {
  }

  lemma UpperSame(c: char, l: char)
    requires !('a' <= l <= 'z')
    ensures UpperChar(c) == l <==> SameLetter(c, l)
  {
  }

  /** Comparing with letter case ignored compares letter by letter. */
  lemma EqualFoldSpells(a: string, b: string)
    ensures EqualFold(a, b) <==> Spelled(a, b)
  {
    hide LowerChar, SameLetter;
    forall k | 0 <= k < |a| && k < |b|
      ensures LowerChar(a[k]) == LowerChar(b[k]) <==> SameLetter(a[k], b[k])
    {
      LowerSame(a[k], b[k]);
    }
    if EqualFold(a, b) { assert forall k | 0 <= k < |a| :: Lower(a)[k] == Lower(b)[k]; }
  }

  /** A word without capitals is found in the lowered text exactly where the text spells it. */
  lemma LowerSpells(s: string, w: string, i: int)
    requires forall k | 0 <= k < |w| :: !('A' <= w[k] <= 'Z')
    ensures Occurs(Lower(s), w, i) <==> SpelledAt(s, w, i)
  {
    hide LowerChar, SameLetter;
    if 0 <= i && i + |w| <= |s| {
      var t := Lower(s)[i..i + |w|];
      forall k | 0 <= k < |w|
        ensures t[k] == w[k] <==> SameLetter(s[i + k], w[k])
      {
        LowerSame(s[i + k], w[k]);
      }
      assert t == w <==> forall k | 0 <= k < |w| :: t[k] == w[k];
    }
  }

  lemma ContainsLowerSpells(s: string, w: string)
    requires forall k | 0 <= k < |w| :: !('A' <= w[k] <= 'Z')
    ensures Contains(Lower(s), w) <==> Mentions(s, w)
  {
    hide Lower, SpelledAt;
    LowerSpells(s, w, Index(Lower(s), w));
    if Mentions(s, w) {
      var i :| SpelledAt(s, w, i);
      LowerSpells(s, w, i);
      ContainsAt(Lower(s), w, i);
    }
  }

  lemma UpperSpells(s: string, w: string, i: int)
    requires forall k | 0 <= k < |w| :: !('a' <= w[k] <= 'z')
    ensures Occurs(Upper(s), w, i) <==> SpelledAt(s, w, i)
  {
    hide UpperChar, SameLetter;
    if 0 <= i && i + |w| <= |s| {
      var t := Upper(s)[i..i + |w|];
      forall k | 0 <= k < |w|
        ensures t[k] == w[k] <==> SameLetter(s[i + k], w[k])
      {
        UpperSame(s[i + k], w[k]);
      }
      assert t == w <==> forall k | 0 <= k < |w| :: t[k] == w[k];
    }
  }

  lemma ContainsUpperSpells(s: string, w: string)
    requires forall k | 0 <= k < |w| :: !('a' <= w[k] <= 'z')
    ensures Contains(Upper(s), w) <==> Mentions(s, w)
  {
    hide Upper, SpelledAt;
    UpperSpells(s, w, Index(Upper(s), w));
    if Mentions(s, w) {
      var i :| SpelledAt(s, w, i);
      UpperSpells(s, w, i);
      ContainsAt(Upper(s), w, i);
    }
  }

  /** A name holds one of the terms when it mentions one, in any letter case. */
  lemma NamesAnyMentions(name: string, terms: seq<string>)
    requires forall i, k | 0 <= i < |terms| && 0 <= k < |terms[i]| :: !('a' <= terms[i][k] <= 'z')
    ensures NamesAny(name, terms) <==> exists i | 0 <= i < |terms| :: Mentions(name, terms[i])
  {
    hide Contains, Upper, Mentions;
    forall i | 0 <= i < |terms|
      ensures Contains(Upper(name), terms[i]) <==> Mentions(name, terms[i])
    {
      ContainsUpperSpells(name, terms[i]);
    }
  }
}
