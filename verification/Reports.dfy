/** The report every check fills in, and the queries a caller makes of it. */
module Reports {
  datatype Severity = Critical | Warning | Info

  datatype Item = Item(
    category: string, name: string, found: string, expected: string, severity: Severity, blocker: string)

  function OfSeverity(items: seq<Item>, s: Severity): seq<Item> {
    if items == [] then []
    else OfSeverity(items[..|items| - 1], s)
         + if items[|items| - 1].severity == s then [items[|items| - 1]] else []
  }

  /** Texts in order of first appearance, blanks and repeats dropped. */
  function Dedup(texts: seq<string>): (r: seq<string>)
    ensures forall t :: t in r <==> t in texts && t != ""
    ensures forall i, j | 0 <= i < j < |r| :: r[i] != r[j]
  {
    if texts == [] then []
    else
      var r := Dedup(texts[..|texts| - 1]);
      var t := texts[|texts| - 1];
      assert texts == texts[..|texts| - 1] + [t];
      if t == "" || t in r then r else r + [t]
  }

  function BlockerTexts(items: seq<Item>): (r: seq<string>)
    ensures |r| == |items| && forall i | 0 <= i < |items| :: r[i] == items[i].blocker
  {
    seq(|items|, i requires 0 <= i < |items| => items[i].blocker)
  }

  /** The loop both Blockers methods of the program run, over any list of blocker texts. */
  method CollectBlockers(texts: seq<string>) returns (out: seq<string>)
    ensures out == Dedup(texts)
  {
    out := [];
    var seen: set<string> := {};
    for i := 0 to |texts|
      invariant out == Dedup(texts[..i])
      invariant forall t :: t in seen <==> t in out
    {
      assert texts[..i + 1][..i] == texts[..i];
      if texts[i] != "" && texts[i] !in seen {
        seen := seen + {texts[i]};
        out := out + [texts[i]];
      }
    }
    assert texts[..|texts|] == texts;
  }

  function Copies(items: seq<Item>, it: Item): nat { multiset(items)[it] }

  lemma CopiesStep(items: seq<Item>, it: Item)
    requires items != []
    ensures Copies(items, it) == Copies(items[..|items| - 1], it) + if items[|items| - 1] == it then 1 else 0
  {
    assert items == items[..|items| - 1] + [items[|items| - 1]];
  }

  lemma {:induction false} SeverityKeepsCopies(items: seq<Item>, it: Item, s: Severity)
    ensures Copies(OfSeverity(items, s), it) == if it.severity == s then Copies(items, it) else 0
  {
    if items != [] {
      SeverityKeepsCopies(items[..|items| - 1], it, s);
      CopiesStep(items, it);
    }
  }

  /** Filing keeps the order: a list filed part by part is the parts' filings, one after the other. */
  lemma {:induction false} SeverityInOrder(a: seq<Item>, b: seq<Item>, it: Item, s: Severity)
    ensures OfSeverity(a + b, s) == OfSeverity(a, s) + OfSeverity(b, s)
    ensures OfSeverity([it], s) == if it.severity == s then [it] else []
  {
    assert [it][..0] == [];
    if b == [] {
      assert a + b == a;
    } else {
      assert (a + b)[..|a + b| - 1] == a + b[..|b| - 1];
      SeverityInOrder(a, b[..|b| - 1], it, s);
    }
  }

  /** Of two texts kept, the one that appeared first stands first. */
  lemma {:induction false} DedupKeepsOrder(texts: seq<string>, i: nat, j: nat)
    requires i < j < |Dedup(texts)|
    ensures exists p | 0 <= p < |texts| :: texts[p] == Dedup(texts)[i] && Dedup(texts)[j] !in texts[..p + 1]
  {
    var n := |texts| - 1;
    var front := texts[..n];
    assert texts == front + [texts[n]];
    if j < |Dedup(front)| {
      DedupKeepsOrder(front, i, j);
      var p :| 0 <= p < n && front[p] == Dedup(front)[i] && Dedup(front)[j] !in front[..p + 1];
      assert texts[..p + 1] == front[..p + 1];
    } else {
      assert Dedup(front)[i] in front;
      var p :| 0 <= p < n && front[p] == Dedup(front)[i];
      assert texts[..p + 1] == front[..p + 1];
      assert forall t | t in front[..p + 1] :: t in front;
      assert texts[n] !in front;
    }
  }

  /** The three severities split the report: nothing is lost, repeated or misfiled. */
  lemma SeveritiesPartition(items: seq<Item>)
    ensures multiset(items)
         == multiset(OfSeverity(items, Critical)) + multiset(OfSeverity(items, Warning))
             + multiset(OfSeverity(items, Info))
  {
    forall it: Item
      ensures Copies(items, it) == Copies(OfSeverity(items, Critical), it) + Copies(OfSeverity(items, Warning), it)
                                   + Copies(OfSeverity(items, Info), it)
    {
      SeverityKeepsCopies(items, it, Critical);
      SeverityKeepsCopies(items, it, Warning);
      SeverityKeepsCopies(items, it, Info);
    }
    assert forall it: Item :: Copies(items, it) == multiset(items)[it];
  }

  lemma {:induction false} SeverityFilesRightly(items: seq<Item>, s: Severity)
    ensures forall it :: it in OfSeverity(items, s) <==> it in items && it.severity == s
  {
    if items != [] {
      SeverityFilesRightly(items[..|items| - 1], s);
      assert items == items[..|items| - 1] + [items[|items| - 1]];
    }
  }

  class Report {
    var project: string
    var status: string
    var foundLabel: string
    var expLabel: string
    var items: seq<Item>

    constructor ()
      ensures items == [] && project == status == foundLabel == expLabel == ""
    {
      items := [];
      project, status, foundLabel, expLabel := "", "", "", "";
    }

    method Add(it: Item)
      modifies this`items
      ensures items == old(items) + [it]
    {
      items := items + [it];
    }

    method BySeverity(s: Severity) returns (out: seq<Item>)
      ensures out == OfSeverity(items, s)
    {
      out := [];
      for i := 0 to |items|
        invariant out == OfSeverity(items[..i], s)
      {
        assert items[..i + 1][..i] == items[..i];
        if items[i].severity == s {
          out := out + [items[i]];
        }
      }
      assert items[..|items|] == items;
    }

    method Failed() returns (failed: bool)
      ensures failed <==> exists it | it in items :: it.severity == Critical
    {
      for i := 0 to |items|
        invariant forall k | 0 <= k < i :: items[k].severity != Critical
      {
        if items[i].severity == Critical {
          return true;
        }
      }
      return false;
    }
  }
}
