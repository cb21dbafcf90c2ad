/**
 init and the safe copy each keep a list of terms that make a name sensitive: on which names
 the two lists agree, and what their difference lets into a copied env file.
 */
module NameLists {
  import opened Text
  import opened EnvText
  import opened EnvClassify

  /** The terms of both lists. */
  const SHARED_TERMS: seq<string> := ["SECRET", "PASSWORD", "API_KEY", "TOKEN", "AUTH", "CREDENTIAL"]

  /** What only the classifier looks for, besides CLIENT_SECRET, which holds SECRET. */
  const CLASSIFIER_TERMS: seq<string> := ["DATABASE_URL", "DB_URL", "ACCOUNT_ID", "CLIENT_ID"]

  /** What only the safe copy looks for. */
  const COPY_TERMS: seq<string> := ["PRIVATE", "SIGNING"]

  lemma NamesAt(name: string, terms: seq<string>, i: nat)
    requires i < |terms| && Contains(Upper(name), terms[i])
    ensures NamesAny(name, terms)
  {
  }

  lemma ClientSecretHoldsSecret(u: string)
    requires Contains(u, "CLIENT_SECRET")
    ensures Contains(u, "SECRET")
  {
    var t := "CLIENT_SECRET";
    var k := Index(u, t);
    assert t[7..13] == "SECRET";
    SliceOfSlice(u, k, k + 13, 7, 13);
    ContainsAt(u, "SECRET", k + 7);
  }

  /** Where each of the classifier's terms went. */
  lemma SensitiveTerms()
    ensures var s, t := SENSITIVE_TERMS, SHARED_TERMS;
      && |s| == 11 && |t| == 6 && s[8] == "CLIENT_SECRET" && t[0] == "SECRET"
      && s[0] == t[2] && s[1] == t[3] && s[2] == t[0] && s[3] == t[1] && s[9] == t[4] && s[10] == t[5]
    ensures |CLASSIFIER_TERMS| == 4 && forall i | 4 <= i < 8 :: SENSITIVE_TERMS[i] == CLASSIFIER_TERMS[i - 4]
  {
  }

  /** And where each of the copy's terms went. */
  lemma SecretTerms()
    ensures |SECRET_TERMS| == 8 && |SHARED_TERMS| == 6 && |COPY_TERMS| == 2
    ensures forall i | 0 <= i < 6 :: SECRET_TERMS[i] == SHARED_TERMS[i]
    ensures forall i | 6 <= i < 8 :: SECRET_TERMS[i] == COPY_TERMS[i - 6]
  {
  }

  lemma ClassifierLooksFor(name: string)
    ensures IsSensitiveName(name) <==> NamesAny(name, SHARED_TERMS) || NamesAny(name, CLASSIFIER_TERMS)
  {
    hide Contains, Upper;
    SensitiveTerms();
    hide SENSITIVE_TERMS, SHARED_TERMS, CLASSIFIER_TERMS;
    var s, u := SENSITIVE_TERMS, Upper(name);
    if Contains(u, s[8]) { ClientSecretHoldsSecret(u); }
    if NamesAny(name, CLASSIFIER_TERMS) {
      var i :| 0 <= i < |CLASSIFIER_TERMS| && Contains(u, CLASSIFIER_TERMS[i]);
      NamesAt(name, s, i + 4);
    }
    if NamesAny(name, s) {
      var i :| 0 <= i < |s| && Contains(u, s[i]);
      if 4 <= i < 8 { NamesAt(name, CLASSIFIER_TERMS, i - 4); }
    }
  }

  lemma CopyLooksFor(name: string)
    ensures IsSecretName(name) <==> NamesAny(name, SHARED_TERMS) || NamesAny(name, COPY_TERMS)
  {
    hide Contains, Upper;
    SecretTerms();
    hide SECRET_TERMS, SHARED_TERMS, COPY_TERMS;
    if NamesAny(name, COPY_TERMS) {
      var i :| 0 <= i < |COPY_TERMS| && Contains(Upper(name), COPY_TERMS[i]);
      NamesAt(name, SECRET_TERMS, i + 6);
    }
  }

  /** The two lists agree on a name exactly when it holds a shared term, or terms of both remainders, or of neither. */
  lemma ListsAgreeExactly(name: string)
    ensures (IsSensitiveName(name) <==> IsSecretName(name)) <==>
              NamesAny(name, SHARED_TERMS) || (NamesAny(name, CLASSIFIER_TERMS) <==> NamesAny(name, COPY_TERMS))
  {
    hide *;
    ClassifierLooksFor(name);
    CopyLooksFor(name);
  }

  /** Some default of a sensitive name is copied. */
  ghost predicate Leaks(name: string) {
    IsSensitiveName(name) && !forall val :: SafeDefault(name, val) == ""
  }

  /**
   The safe copy keeps the default of a name the classifier calls sensitive exactly when the name
   holds one of the four terms that only the classifier knows, and is no secret name.
   */
  lemma SensitiveIsCopiedExactly(name: string)
    ensures Leaks(name) <==> NamesAny(name, CLASSIFIER_TERMS) && !IsSecretName(name)
    ensures Leaks(name) ==> forall val :: SafeDefault(name, val) == val
  {
    hide NamesAny;
    ClassifierLooksFor(name);
    CopyLooksFor(name);
    hide IsSensitiveName, IsSecretName;
    assert SafeDefault(name, "x") == if IsSecretName(name) then "" else "x";
    assert "x" != "";
  }

  /** A line of the example whose default the copy holds again, under the same sensitive key. */
  ghost predicate DefaultSurvives(example: string, i: nat) {
    && i < |Lines(example)| && i < |Lines(CopyText(example))|
    && var p := ParseLine(Lines(example)[i]);
       p.Pair? && IsSensitiveName(p.key) && p.value != "" && ParseLine(Lines(CopyText(example))[i]) == p
  }

  lemma StrippedTwiceIsNotKept(example: string, i: nat)
    requires i < |Lines(example)| && Restrips(Lines(example)[i]) && i < |Lines(CopyText(example))|
    ensures ParseLine(Lines(CopyText(example))[i]) != ParseLine(Lines(example)[i])
  {
    CopyReadBack(example);
    hide Lines, CopyText, CopyLine, ParseLine, Restrips, DropCR;
    CopyLineKeepsMeaning(Lines(example)[i]);
    ParseDropCR(CopyLine(Lines(example)[i]));
  }

  /**
   Line by line of any example: a nonblank default survives under its sensitive key exactly when
   the line is not stripped twice, and the key holds one of the four terms and is no secret name.
   */
  lemma SensitiveDefaultSurvivesExactly(example: string, i: nat)
    requires i < |Lines(example)|
    ensures DefaultSurvives(example, i) <==>
              var p := ParseLine(Lines(example)[i]);
              && !Restrips(Lines(example)[i])
              && p.Pair? && p.value != "" && NamesAny(p.key, CLASSIFIER_TERMS) && !IsSecretName(p.key)
  {
    hide ParseLine, CopyText, Lines, Restrips, IsSensitiveName, IsSecretName, NamesAny;
    CopyReadBack(example);
    var p := ParseLine(Lines(example)[i]);
    if Restrips(Lines(example)[i]) { StrippedTwiceIsNotKept(example, i); } else { CopyMeansRedacted(example, i); }
    if p.Pair? {
      ClassifierLooksFor(p.key);
      CopyLooksFor(p.key);
    }
  }

  /** Whatever line of the copy holds a value, its key is sensitive exactly when it holds one of the four terms. */
  lemma CopyHoldsSensitiveExactly(example: string, i: nat)
    requires i < |Lines(CopyText(example))|
    ensures var p := ParseLine(Lines(CopyText(example))[i]);
      p.Pair? && p.value != "" ==> (IsSensitiveName(p.key) <==> NamesAny(p.key, CLASSIFIER_TERMS))
  {
    hide ParseLine, CopyText, Lines, IsSensitiveName, IsSecretName, NamesAny;
    CopyNeverHoldsSecrets(example, i);
    var p := ParseLine(Lines(CopyText(example))[i]);
    if p.Pair? {
      ClassifierLooksFor(p.key);
      CopyLooksFor(p.key);
    }
  }
}
