/** What a fix can never do to an env file that is already there, whatever was reported. */
module FixSafety {
  import opened Prelude
  import opened Text
  import opened EnvText
  import opened EnvKeys
  import opened Reports
  import opened FixPlans
  import opened FixApply

  // ----------------------------------------- no create over an existing file

  ghost predicate NoCreate(planned: seq<Planned>) {
    forall i | 0 <= i < |planned| && planned[i].lane == Safe :: planned[i].action.id != CREATE_ENV
  }

  lemma SafeIdsDiffer(image: string, missing: seq<string>)
    ensures PullAction(image).id != CREATE_ENV && AppendAction(missing).id != CREATE_ENV
  {
    hide Lower;
    assert PullAction(image).id[0] == 'd' && CREATE_ENV[0] == 'c' && APPEND_KEYS[0] == 'a';
  }

  lemma ItemNoCreate(it: Item, files: Files)
    requires files.envExists
    ensures NoCreate(ItemFixes(it, files))
  {
    hide ItemFixes, PullAction, AppendAction, CREATE_ENV, ExtractMissingKeys;
    SafeIdsDiffer(it.name, ExtractMissingKeys(it.blocker));
    if it.category == "Env" {
      EnvItemFixes(it, files);
    } else {
      OtherItemFix(it, files);
    }
  }

  lemma {:induction false} PlanNoCreate(items: seq<Item>, files: Files)
    requires files.envExists
    ensures NoCreate(AllFixes(items, files))
  {
    hide ItemFixes;
    if items != [] {
      var n := |items| - 1;
      PlanNoCreate(items[..n], files);
      ItemNoCreate(items[n], files);
      hide CREATE_ENV;
      assert AllFixes(items, files) == AllFixes(items[..n], files) + ItemFixes(items[n], files);
    }
  }

  // -------------------------------------------- so the file only ever grows

  ghost predicate Grown(e: string, after: Option<string>) {
    after.Some? && e <= after.value && forall k | k in ReadKeys(e) :: k in ReadKeys(after.value)
  }

  lemma AppendGrows(e: string, t: string, s: string)
    requires Grown(e, Some(t))
    ensures Grown(e, Some(t + s))
  {
    hide ReadKeys;
    AppendingKeepsKeys(t, s);
  }

  lemma {:induction false} ActionsGrow(actions: seq<Action>, example: Option<string>, e: string)
    requires forall a | a in actions :: a.id != CREATE_ENV
    ensures Grown(e, EnvAfterAll(actions, example, Some(e)))
  {
    hide ReadKeys, Placeholders;
    if actions != [] {
      var front, last := actions[..|actions| - 1], actions[|actions| - 1];
      assert last in actions && forall a | a in front :: a in actions;
      ActionsGrow(front, example, e);
      AppendGrows(e, EnvAfterAll(front, example, Some(e)).value, Placeholders(last.appliesTo));
      hide Grown;
    }
  }

  /**
   Fixing never damages an env file: whatever the report holds, its text stays in front and
   every key it declares stays declared.
   */
  lemma PlanOnlyGrows(items: seq<Item>, example: Option<string>, e: string)
    ensures Grown(e, EnvAfterAll(InLane(AllFixes(items, Files(true, example.Some?)), Safe), example, Some(e)))
  {
    hide AllFixes, Grown, ReadKeys;
    var planned := AllFixes(items, Files(true, example.Some?));
    PlanNoCreate(items, Files(true, example.Some?));
    LaneIsFromPlan(planned, Safe);
    forall a | a in InLane(planned, Safe)
      ensures a.id != CREATE_ENV
    {
      var i :| 0 <= i < |planned| && planned[i] == Planned(Safe, a);
    }
    ActionsGrow(InLane(planned, Safe), example, e);
  }
}
