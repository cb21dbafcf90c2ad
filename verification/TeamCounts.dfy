/** What the ranking counts: machines, except that the env text can count one machine twice. */
module TeamCounts {
  import opened Prelude
  import opened Text
  import opened Model
  import opened Diff
  import opened Team
  import opened TeamInvariance

  // --------------------------------------- normalizing keeps the first word

  lemma NormalizeKeepsWord(text: string, w: string)
    requires StartsWithWord(text, w) && IsWord(w)
    ensures StartsWithWord(NormalizeBlocker(text), w)
  {
    var i := Index(text, ON);
    if i >= 0 {
      OccursOn(text, i);
      assert i < |w| ==> !IsSpace(w[i]);
      assert i > |w| + 1;
      KeepsFront(text[..i], |w| + 1);
    }
  }

  lemma KeepsFront(p: string, n: nat)
    requires n < |p| && !IsSpace(p[0]) && !IsSpace(p[n])
    ensures |Trim(p)| > n && forall k | 0 <= k <= n :: Trim(p)[k] == p[k]
  {
    assert SkipSpaces(p, 0) == 0;
    assert p[0..] == p;
    assert BackOverSpaces(p, |p|) > n;
  }

  const ENV_TEXT := "required environment variables absent"

  lemma NormalizeEnv(rest: string)
    ensures NormalizeBlocker(ENV_TEXT + ON + rest) == ENV_TEXT
  {
    EnvTextPlain();
    NormalizeAt(ENV_TEXT, rest);
  }

  lemma EnvTextPlain()
    ensures NoSpaceO(ENV_TEXT) && ENV_TEXT[|ENV_TEXT| - 1] == 't' && ENV_TEXT[0] == 'r'
    ensures StartsWithWord(ENV_TEXT, ENV_TAG)
  {
  }

  // ------------------------------------------- the texts one machine counts

  /** The tally texts of a run of entries. */
  ghost function EntryNorms(es: seq<Entry>): seq<string> {
    if es == [] then []
    else
      var e := es[|es| - 1];
      EntryNorms(es[..|es| - 1]) + if e.blocker == "" then [] else [NormalizeBlocker(e.blocker)]
  }

  lemma {:induction false} EntryNormsConcat(x: seq<Entry>, y: seq<Entry>)
    ensures EntryNorms(x + y) == EntryNorms(x) + EntryNorms(y)
  {
    hide NormalizeBlocker;
    if y == [] {
      assert x + y == x;
    } else {
      EntryNormsConcat(x, y[..|y| - 1]);
      assert (x + y)[..|x + y| - 1] == x + y[..|y| - 1];
      assert (x + y)[|x + y| - 1] == y[|y| - 1];
    }
  }

  lemma {:induction false} EntryNormsAreTallied(es: seq<Entry>)
    ensures NormalizeAll(NonEmpty(BlockerTexts(es))) == EntryNorms(es)
  {
    if es != [] {
      var n := |es| - 1;
      EntryNormsAreTallied(es[..n]);
      assert BlockerTexts(es)[..n] == BlockerTexts(es[..n]);
      NormalizeSnoc(NonEmpty(BlockerTexts(es[..n])), es[n].blocker);
    }
  }

  lemma {:induction false} QuietNorms(es: seq<Entry>)
    requires Quiet(es)
    ensures EntryNorms(es) == []
  {
    if es != [] { QuietNorms(es[..|es| - 1]); }
  }

  lemma EnvNorms(side: Side, keys: seq<string>)
    ensures EntryNorms(EnvEntry(side, keys)) == if keys == [] then [] else [ENV_TEXT]
  {
    var sep := ", ";
    hide Join;
    assert ABSENT_ON_A == ENV_TEXT + ON + "A: ";
    assert ABSENT_ON_B == ENV_TEXT + ON + "B: ";
    NormalizeEnv("A: " + Join(keys, sep));
    NormalizeEnv("B: " + Join(keys, sep));
    Assoc(ENV_TEXT + ON, "A: ", Join(keys, sep));
    Assoc(ENV_TEXT + ON, "B: ", Join(keys, sep));
    hide NormalizeBlocker;
  }

  ghost predicate NoRepeats(s: seq<string>) { forall i, j | 0 <= i < j < |s| :: s[i] != s[j] }

  ghost predicate FromEntry(text: string, es: seq<Entry>) {
    exists i | 0 <= i < |es| :: StartsWithWord(text, es[i].name)
  }

  /** Each text opens with the name of one of the entries. */
  ghost predicate FromEntries(texts: seq<string>, es: seq<Entry>) {
    forall k | 0 <= k < |texts| :: FromEntry(texts[k], es)
  }

  lemma FromMoreEntries(texts: seq<string>, es: seq<Entry>, e: Entry)
    requires FromEntries(texts, es)
    ensures FromEntries(texts, es + [e])
  {
    forall k | 0 <= k < |texts|
      ensures FromEntry(texts[k], es + [e])
    {
      assert FromEntry(texts[k], es);
      var i :| 0 <= i < |es| && StartsWithWord(texts[k], es[i].name);
      assert (es + [e])[i] == es[i];
      assert FromEntry(texts[k], es + [e]);
    }
  }

  lemma OneMoreText(texts: seq<string>, t: string, es: seq<Entry>, e: Entry)
    requires NoRepeats(texts) && FromEntries(texts, es) && StartsWithWord(t, e.name) && NoSpace(e.name)
    requires forall i | 0 <= i < |es| :: es[i].name != e.name && NoSpace(es[i].name)
    ensures NoRepeats(texts + [t]) && FromEntries(texts + [t], es + [e])
  {
    forall k | 0 <= k < |texts|
      ensures texts[k] != t
    {
      assert FromEntry(texts[k], es);
      var i :| 0 <= i < |es| && StartsWithWord(texts[k], es[i].name);
      if texts[k] == t { FirstWordUnique(t, es[i].name, e.name); }
    }
    FromMoreEntries(texts, es, e);
    assert (es + [e])[|es|] == e;
    assert FromEntry(t, es + [e]);
  }

  lemma {:induction false} RuntimeNorms(es: seq<Entry>, names: seq<string>)
    requires RuntimeList(es, names) && GoodNames(names)
    ensures NoRepeats(EntryNorms(es)) && FromEntries(EntryNorms(es), es)
  {
    if es != [] {
      var n := |es| - 1;
      var front, e := es[..n], es[n];
      RuntimeNorms(front, names);
      hide NormalizeBlocker, NoRepeats, FromEntries;
      assert es == front + [e];
      assert e.name in names && forall i | 0 <= i < |front| :: front[i].name in names;
      if e.blocker == "" {
        FromMoreEntries(EntryNorms(front), front, e);
      } else {
        NormalizeKeepsWord(e.blocker, e.name);
        OneMoreText(EntryNorms(front), NormalizeBlocker(e.blocker), front, e);
      }
    }
  }

  lemma EnvTextApart(texts: seq<string>, es: seq<Entry>, names: seq<string>)
    requires FromEntries(texts, es) && RuntimeList(es, names) && GoodNames(names)
    ensures ENV_TEXT !in texts
  {
    EnvTextPlain();
    EnvTagIsWord();
    forall k | 0 <= k < |texts|
      ensures texts[k] != ENV_TEXT
    {
      assert FromEntry(texts[k], es);
      var i :| 0 <= i < |es| && StartsWithWord(texts[k], es[i].name);
      if texts[k] == ENV_TEXT { FirstWordUnique(ENV_TEXT, es[i].name, ENV_TAG); }
    }
  }

  /** Each side lacks a key the other has. */
  predicate BothLack(a: Snapshot, b: Snapshot) {
    Subtract(b.missingKeys, a.missingKeys) != [] && Subtract(a.missingKeys, b.missingKeys) != []
  }

  function Once(b: bool): nat { if b then 1 else 0 }

  lemma {:induction false} NoRepeatsCount(s: seq<string>, t: string)
    requires NoRepeats(s)
    ensures multiset(s)[t] == Once(t in s)
  {
    if s != [] {
      var n := |s| - 1;
      NoRepeatsCount(s[..n], t);
      assert s == s[..n] + [s[n]];
    }
  }

  lemma CountWithEnv(rs: seq<string>, x: seq<string>, y: seq<string>, t: string)
    requires NoRepeats(rs) && ENV_TEXT !in rs
    requires (x == [] || x == [ENV_TEXT]) && (y == [] || y == [ENV_TEXT])
    ensures multiset(rs + x + y)[t] == Once(t in rs + x + y) + Once(t == ENV_TEXT && x != [] && y != [])
  {
    NoRepeatsCount(rs, t);
  }

  ghost function Norms(baseline: Snapshot, in_: Input): seq<string> { NormalizeAll(MachineBlockers(baseline, in_)) }

  lemma NormsSplit(baseline: Snapshot, in_: Input) returns (rs: seq<string>, x: seq<string>, y: seq<string>)
    ensures Norms(baseline, in_) == rs + x + y
    ensures NoRepeats(rs) && ENV_TEXT !in rs
    ensures x == if Subtract(in_.snapshot.missingKeys, baseline.missingKeys) == [] then [] else [ENV_TEXT]
    ensures y == if Subtract(baseline.missingKeys, in_.snapshot.missingKeys) == [] then [] else [ENV_TEXT]
  {
    var a, b := baseline, in_.snapshot;
    hide FullDiff;
    FullDiffDistinct(a, b, BASELINE, in_.name);
    DedupOfDistinct(BlockerTexts(MachineDiff(a, in_)));
    EntryNormsAreTallied(MachineDiff(a, in_));
    rs, x, y := PartsOfNorms(a, b, in_.name);
  }

  lemma PartsOfNorms(a: Snapshot, b: Snapshot, name: string) returns (rs: seq<string>, x: seq<string>, y: seq<string>)
    ensures EntryNorms(FullDiff(a, b, BASELINE, name)) == rs + x + y
    ensures NoRepeats(rs) && ENV_TEXT !in rs
    ensures x == if Subtract(b.missingKeys, a.missingKeys) == [] then [] else [ENV_TEXT]
    ensures y == if Subtract(a.missingKeys, b.missingKeys) == [] then [] else [ENV_TEXT]
  {
    hide FullDiff, EntryNorms, RuntimeList, GoodNames, Quiet, NoRepeats, FromEntries, EnvEntry, Subtract,
        NormalizeBlocker;
    var q1, r, q2 := FullDiffParts(a, b, BASELINE, name);
    var onB, onA := EnvEntry(SideB, Subtract(b.missingKeys, a.missingKeys)),
        EnvEntry(SideA, Subtract(a.missingKeys, b.missingKeys));
    rs, x, y := EntryNorms(r), EntryNorms(onB), EntryNorms(onA);
    RuntimeNorms(r, RUNTIME_NAMES);
    EnvTextApart(rs, r, RUNTIME_NAMES);
    EnvNorms(SideB, Subtract(b.missingKeys, a.missingKeys));
    EnvNorms(SideA, Subtract(a.missingKeys, b.missingKeys));
    EntryNormsConcat(onB, onA);
    JoinNorms(q1, r, q2, onB + onA);
    Assoc(rs, x, y);
  }

  lemma JoinNorms(q1: seq<Entry>, r: seq<Entry>, q2: seq<Entry>, es: seq<Entry>)
    requires Quiet(q1) && Quiet(q2)
    ensures EntryNorms(q1 + r + q2 + es) == EntryNorms(r) + EntryNorms(es)
  {
    hide EntryNorms, Quiet;
    QuietNorms(q1);
    QuietNorms(q2);
    EntryNormsConcat(q1, r);
    EntryNormsConcat(q1 + r, q2);
    EntryNormsConcat(q1 + r + q2, es);
  }

  /** One machine counts a text once, but the env text twice when each side lacks a key. */
  lemma MachineCount(baseline: Snapshot, in_: Input, t: string)
    ensures multiset(Norms(baseline, in_))[t] == Once(t in Norms(baseline, in_))
              + Once(t == ENV_TEXT && BothLack(baseline, in_.snapshot))
  {
    hide Norms;
    var rs, x, y := NormsSplit(baseline, in_);
    CountWithEnv(rs, x, y, t);
  }

  // ------------------------------------------------------ over all machines

  /** The number of machines that have a blocker. */
  ghost function MachinesWith(baseline: Snapshot, inputs: seq<Input>, t: string): nat {
    if inputs == [] then 0
    else MachinesWith(baseline, inputs[..|inputs| - 1], t) + Once(t in Norms(baseline, inputs[|inputs| - 1]))
  }

  ghost function TwoSidedMachines(baseline: Snapshot, inputs: seq<Input>): nat {
    if inputs == [] then 0
    else TwoSidedMachines(baseline, inputs[..|inputs| - 1]) + Once(BothLack(baseline, inputs[|inputs| - 1].snapshot))
  }

  lemma {:induction false} TextsPerMachine(baseline: Snapshot, inputs: seq<Input>, t: string)
    ensures multiset(AllBlockers(baseline, inputs))[t]
         == MachinesWith(baseline, inputs, t) + if t == ENV_TEXT then TwoSidedMachines(baseline, inputs) else 0
  {
    if inputs != [] {
      var front, last := inputs[..|inputs| - 1], inputs[|inputs| - 1];
      TextsPerMachine(baseline, front, t);
      MachineCount(baseline, last, t);
      CountOfConcat(AllBlockers(baseline, front), Norms(baseline, last), t);
      assert AllBlockers(baseline, inputs) == AllBlockers(baseline, front) + Norms(baseline, last);
    }
  }

  lemma CountOfConcat(a: seq<string>, b: seq<string>, t: string)
    ensures multiset(a + b)[t] == multiset(a)[t] + multiset(b)[t]
  {
  }

  /** Every ranked count is the number of machines sharing the blocker; only the env text can exceed it. */
  lemma CountsAreMachines(baseline: Snapshot, inputs: seq<Input>, s: Summary)
    requires IsSummary(baseline, inputs, s)
    ensures forall c | c in s.commonBlockers ::
              c.count == MachinesWith(baseline, inputs, c.blocker)
                         + if c.blocker == ENV_TEXT then TwoSidedMachines(baseline, inputs) else 0
  {
    var tally :| Tallies(tally, AllBlockers(baseline, inputs)) && s.commonBlockers == Ranking(tally);
    forall c | c in s.commonBlockers
      ensures c.count == MachinesWith(baseline, inputs, c.blocker)
                         + if c.blocker == ENV_TEXT then TwoSidedMachines(baseline, inputs) else 0
    {
      TextsPerMachine(baseline, inputs, c.blocker);
    }
  }

  /** One machine, one baseline, each lacking a key of the other: the env text is counted twice. */
  lemma EnvTextCountedTwice(baseline: Snapshot, in_: Input)
    requires BothLack(baseline, in_.snapshot)
    ensures multiset(AllBlockers(baseline, [in_]))[ENV_TEXT] == 2
  {
    hide Norms;
    var rs, x, y := NormsSplit(baseline, in_);
    CountWithEnv(rs, x, y, ENV_TEXT);
    assert (rs + x + y)[|rs|] == ENV_TEXT;
    OnlyMachine(baseline, in_);
  }

  lemma OnlyMachine(baseline: Snapshot, in_: Input)
    ensures AllBlockers(baseline, [in_]) == Norms(baseline, in_)
  {
    BlockersStep(baseline, [], in_);
    assert [] + [in_] == [in_];
  }
}
