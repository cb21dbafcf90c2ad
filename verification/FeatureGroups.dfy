/** One feature group through the classifier: its switch decides whether its secret is wanted. */
module FeatureGroups {
  import opened Text
  import opened EnvText
  import opened EnvClassify

  const SWITCH_KEY := "STRIPE_ENABLED"
  const SECRET_KEY := "STRIPE_API_KEY"
  const STEM := "STRIPE_"

  /** An example of two lines: the switch, and a secret without a default. */
  function Example(value: string): string { SWITCH_KEY + "=" + value + "\n" + (SECRET_KEY + "=" + "\n") }

  function ExampleLines(value: string): seq<string> { [SWITCH_KEY + "=" + value, SECRET_KEY + "="] }

  lemma KeysArePlain()
    ensures NoEquals(SWITCH_KEY) && NoEquals(SECRET_KEY) && OneLine(SWITCH_KEY) && OneLine(SECRET_KEY)
    ensures TrimLeft(SWITCH_KEY) == SWITCH_KEY && TrimLeft(SECRET_KEY) == SECRET_KEY
    ensures Trim(SWITCH_KEY) == SWITCH_KEY && Trim(SECRET_KEY) == SECRET_KEY
    ensures Bare(SWITCH_KEY) == SWITCH_KEY && Bare(SECRET_KEY) == SECRET_KEY
    ensures SWITCH_KEY != "" && SECRET_KEY != "" && SWITCH_KEY[0] == 'S' && SECRET_KEY[0] == 'S'
  {
    TrimLeftUnique(SWITCH_KEY, 0);
    TrimLeftUnique(SECRET_KEY, 0);
    TrimOfTrimmed(SWITCH_KEY);
    TrimOfTrimmed(SECRET_KEY);
    assert SWITCH_KEY[0..] == SWITCH_KEY && SECRET_KEY[0..] == SECRET_KEY;
  }

  lemma PairsParse(value: string)
    requires Trimmed(value)
    ensures ParseLine(SWITCH_KEY + "=" + value) == Pair(SWITCH_KEY, value)
    ensures ParseLine(SECRET_KEY + "=") == Pair(SECRET_KEY, "")
  {
    hide SWITCH_KEY, SECRET_KEY, Trim, TrimLeft, ParseLine, Bare;
    KeysArePlain();
    TrimOfTrimmed(value);
    TrimOfTrimmed("");
    ParseWritten(SWITCH_KEY, value);
    ParseWritten(SECRET_KEY, "");
    assert SECRET_KEY + "=" + "" == SECRET_KEY + "=";
  }

  lemma LinesOfExample(value: string)
    requires Trimmed(value) && OneLine(value)
    ensures Lines(Example(value)) == ExampleLines(value)
  {
    KeysArePlain();
    hide SWITCH_KEY, SECRET_KEY, Lines, Trim, TrimLeft, Bare;
    var x, y := SWITCH_KEY + "=" + value, SECRET_KEY + "=";
    assert OneLine(x) && OneLine(y);
    assert x[|x| - 1] == if value == "" then '=' else value[|value| - 1];
    LinesStep(y, "");
    NothingWritten();
    assert y + "\n" + "" == y + "\n";
    LinesStep(x, y + "\n");
    assert DropCR(x) == x && DropCR(y) == y;
  }

  lemma KeysAreUpper()
    ensures Upper(SWITCH_KEY) == SWITCH_KEY && Upper(SECRET_KEY) == SECRET_KEY
  {
    UpperKeeps(SWITCH_KEY);
    UpperKeeps(SECRET_KEY);
  }

  lemma StemFits()
    ensures STEM != "" && STEM[|STEM| - 1] == '_' && SWITCH_KEY == STEM + "ENABLED" && STEM <= SECRET_KEY
  {
  }

  lemma NamesFit()
    ensures IsSensitiveName(SECRET_KEY)
    ensures STEM != "" && STEM[|STEM| - 1] == '_' && Upper(SWITCH_KEY) == STEM + "ENABLED" && STEM <= Upper(SECRET_KEY)
  {
    hide *;
    KeysAreUpper();
    StemFits();
    HoldsApiKey();
  }

  lemma HoldsApiKey()
    ensures IsSensitiveName(SECRET_KEY)
  {
    UpperKeeps(SECRET_KEY);
    hide Upper, Contains;
    assert SECRET_KEY[7..14] == "API_KEY" && SENSITIVE_TERMS[0] == "API_KEY";
    ContainsAt(SECRET_KEY, "API_KEY", 7);
  }

  lemma BlankIsNotOff()
    ensures !OffValue("")
  {
    TrimOfTrimmed("");
  }

  lemma SwitchDecides(value: string)
    requires Trimmed(value)
    ensures SwitchedOff(ExampleLines(value), SECRET_KEY) <==> OffValue(value)
  {
    hide SWITCH_KEY, SECRET_KEY, STEM, ParseLine, OffValue, Upper;
    var lines := ExampleLines(value);
    PairsParse(value);
    NamesFit();
    BlankIsNotOff();
    if OffValue(value) { assert LineTurnsOff(lines[0], STEM); }
  }

  lemma NoHintHere(value: string, h: EnvClass)
    requires Trimmed(value)
    ensures !Hinted(ExampleLines(value), 1, h)
  {
    hide SWITCH_KEY, SECRET_KEY, ParseLine, WordHint;
    PairsParse(value);
  }

  /** The second line is the only one that speaks for the secret. */
  lemma OnlySecondLine(value: string, c: EnvClass)
    requires Trimmed(value)
    ensures SomeLineGives(ExampleLines(value), SECRET_KEY, c) <==> GivesClass(ExampleLines(value), 1, SECRET_KEY, c)
  {
    hide SWITCH_KEY, SECRET_KEY, ParseLine, LineHasClass;
    PairsParse(value);
    KeysDiffer();
  }

  lemma SecondLineClass(value: string, c: EnvClass)
    requires Trimmed(value)
    ensures GivesClass(ExampleLines(value), 1, SECRET_KEY, c) <==> c == if OffValue(value) then Optional else Required
  {
    hide SWITCH_KEY, SECRET_KEY, ParseLine, OffValue, SwitchedOff, Hinted, IsSensitiveName;
    PairsParse(value);
    SwitchDecides(value);
    NamesFit();
    TrimOfTrimmed("");
    forall h { NoHintHere(value, h); }
  }

  /** The secret is optional exactly when the switch is off, and required otherwise. */
  lemma GroupFollowsSwitch(value: string)
    requires Trimmed(value) && OneLine(value)
    ensures SECRET_KEY in KeysOfClass(ClassifyExample(Example(value)), if OffValue(value) then Optional else Required)
    ensures SECRET_KEY !in KeysOfClass(ClassifyExample(Example(value)), if OffValue(value) then Required else Optional)
  {
    hide *;
    forall c
      ensures SECRET_KEY in KeysOfClass(ClassifyExample(Example(value)), c) <==>
                c == if OffValue(value) then Optional else Required
    {
      SecretClass(value, c);
    }
  }

  lemma SecretClass(value: string, c: EnvClass)
    requires Trimmed(value) && OneLine(value)
    ensures SECRET_KEY in KeysOfClass(ClassifyExample(Example(value)), c) <==>
              c == if OffValue(value) then Optional else Required
  {
    hide *;
    LinesOfExample(value);
    OnlySecondLine(value, c);
    SecondLineClass(value, c);
    ClassFromText(Example(value), SECRET_KEY, c);
  }

  lemma KeysDiffer()
    ensures SWITCH_KEY != SECRET_KEY
  {
    assert SWITCH_KEY[7] == 'E' && SECRET_KEY[7] == 'A';
  }

  lemma DisabledGroup()
    ensures SECRET_KEY in KeysOfClass(ClassifyExample(Example("false")), Optional)
    ensures SECRET_KEY !in KeysOfClass(ClassifyExample(Example("false")), Required)
  {
    TrimOfTrimmed("false");
    assert OffValue("false");
    hide OffValue, ClassifyExample, KeysOfClass;
    GroupFollowsSwitch("false");
  }

  lemma EnabledGroup()
    ensures SECRET_KEY in KeysOfClass(ClassifyExample(Example("true")), Required)
    ensures SECRET_KEY !in KeysOfClass(ClassifyExample(Example("true")), Optional)
  {
    TrimOfTrimmed("true");
    assert !OffValue("true");
    hide OffValue, ClassifyExample, KeysOfClass;
    GroupFollowsSwitch("true");
  }
}
