/** The baseline report spelled out: its items and its status, read off the two snapshots. */
module DriftReport {
  import opened Model
  import opened Baseline
  import opened DiffSides
  import Diff
  import Reports

  /** An item repeats a finding: the baseline's value as found, the local one as expected. */
  ghost predicate Repeats(it: Reports.Item, e: Diff.Entry) {
    && it.category == e.category && it.name == e.name && it.found == e.a && it.expected == e.b
    && it.blocker == e.blocker
    && (it.severity.Critical? <==> e.severity.Critical?)
    && (it.severity.Warning? <==> e.severity.Difference?)
    && (it.severity.Info? <==> e.severity.Info?)
  }

  lemma ItemRepeats(it: Reports.Item, e: Diff.Entry)
    ensures it == ItemFor(e) <==> Repeats(it, e)
  {
  }

  lemma LabelsSpelledOut()
    ensures Diff.BASELINE == "baseline" && YOURS == "yours"
  {
  }

  /** Every item of the report, and no other. */
  lemma ReportItemsExactly(baseline: Snapshot, current: Snapshot, it: Reports.Item)
    ensures it in ItemsFor(Drift(baseline, current)) <==>
              exists e :: Told(e, baseline, current, "baseline", "yours") && Repeats(it, e)
  {
    LabelsSpelledOut();
    hide Told, Repeats, ItemFor, Diff.FullDiff;
    var es := Drift(baseline, current);
    forall e: Diff.Entry
      ensures e in es <==> Told(e, baseline, current, "baseline", "yours")
      ensures it == ItemFor(e) <==> Repeats(it, e)
    {
      FullDiffTells(baseline, current, "baseline", "yours", e);
      ItemRepeats(it, e);
    }
    if it in ItemsFor(es) {
      var i :| 0 <= i < |es| && ItemsFor(es)[i] == it;
      assert es[i] in es && Repeats(it, es[i]);
    }
    if e :| Told(e, baseline, current, "baseline", "yours") && Repeats(it, e) {
      var i :| 0 <= i < |es| && es[i] == e;
      assert ItemsFor(es)[i] == it;
    }
  }

  /** The three texts a user can read, each with what it says about the two machines. */
  lemma StatusSpelledOut(baseline: Snapshot, current: Snapshot)
    ensures var text := StatusText(VerdictOf(baseline, current));
      && (CriticalDrift(baseline, current) ==> text == "Your setup differs from baseline")
      && (Diff.NoDrift(baseline, current) && baseline.os == current.os && baseline.arch == current.arch ==>
            text == "Your setup matches baseline")
      && (!CriticalDrift(baseline, current)
          && !(Diff.NoDrift(baseline, current) && baseline.os == current.os && baseline.arch == current.arch) ==>
            text == "Your setup differs from baseline (minor)")
  {
    StatusExactly(baseline, current);
    hide VerdictOf, CriticalDrift, Diff.NoDrift;
  }
}
