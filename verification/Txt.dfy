/** The mDNS TXT records of a share: printing the metadata and reading it back. */
module Txt {
  import opened Prelude
  import opened Text
  import opened Decimal

  datatype ShareMeta = ShareMeta(
    repo: string, project: string, version: string, mode: string, fingerprint: string, expiresAt: int, port: int)

  const REPO := "repo"
  const PROJECT := "project"
  const VERSION := "version"
  const MODE := "mode"
  const FINGERPRINT := "fingerprint"
  const EXPIRES_AT := "expires_at"

  function Record(key: string, value: string): string { key + "=" + value }

  function BuildTXT(meta: ShareMeta): seq<string> {
    [Record(REPO, meta.repo), Record(PROJECT, meta.project), Record(VERSION, meta.version), Record(MODE, meta.mode),
     Record(FINGERPRINT, meta.fingerprint), Record(EXPIRES_AT, FormatInt(meta.expiresAt))]
  }

  /** The six records a share announces, and no other. */
  lemma RecordsSpelledOut(meta: ShareMeta)
    ensures BuildTXT(meta) ==
            ["repo=" + meta.repo, "project=" + meta.project, "version=" + meta.version, "mode=" + meta.mode,
             "fingerprint=" + meta.fingerprint, "expires_at=" + FormatInt(meta.expiresAt)]
  {
    hide FormatInt;
    assert REPO + "=" == "repo=" && PROJECT + "=" == "project=" && VERSION + "=" == "version=" && MODE + "=" == "mode=";
    assert FINGERPRINT + "=" == "fingerprint=" && EXPIRES_AT + "=" == "expires_at=";
  }

  // --------------------------------------------------------------- reading

  /** A record is a pair when its first '=' has a key in front of it. */
  predicate IsPair(r: string) { IndexByte(r, '=') > 0 }

  function KeyOf(r: string): string
    requires IsPair(r)
  {
    r[..IndexByte(r, '=')]
  }

  function ValueOf(r: string): string
    requires IsPair(r)
  {
    r[IndexByte(r, '=') + 1..]
  }

  predicate HasKey(r: string, key: string) { IsPair(r) && KeyOf(r) == key }

  /** The last value given for a key, or nothing. */
  function Lookup(records: seq<string>, key: string): Option<string> {
    if records == [] then None
    else
      var r := records[|records| - 1];
      if HasKey(r, key) then Some(ValueOf(r)) else Lookup(records[..|records| - 1], key)
  }

  function TextAt(records: seq<string>, key: string): string {
    match Lookup(records, key)
    case None => ""
    case Some(v) => v
  }

  function Parsed(records: seq<string>): ShareMeta {
    ShareMeta(TextAt(records, REPO), TextAt(records, PROJECT), TextAt(records, VERSION), TextAt(records, MODE),
              TextAt(records, FINGERPRINT), ParseIntOrBound(TextAt(records, EXPIRES_AT)), 0)
  }

  /** The map holds the last value of every key. */
  ghost predicate Collected(m: map<string, string>, records: seq<string>) {
    forall k :: (k in m <==> Lookup(records, k).Some?) && (k in m ==> Lookup(records, k) == Some(m[k]))
  }

  method CollectPairs(records: seq<string>) returns (m: map<string, string>)
    ensures Collected(m, records)
  {
    m := map[];
    for n := 0 to |records|
      invariant Collected(m, records[..n])
    {
      var r := records[n];
      assert records[..n + 1][..n] == records[..n];
      assert records[..n + 1][n] == r;
      var i := IndexByte(r, '=');
      if i > 0 {
        m := m[r[..i] := r[i + 1..]];
      }
    }
    assert records[..|records|] == records;
  }

  function Get(m: map<string, string>, key: string): string { if key in m then m[key] else "" }

  method ParseTXT(records: seq<string>) returns (meta: ShareMeta)
    ensures meta == Parsed(records)
  {
    var m := CollectPairs(records);
    hide Lookup;
    var exp := ParseIntOrBound(Get(m, EXPIRES_AT));
    meta := ShareMeta(Get(m, REPO), Get(m, PROJECT), Get(m, VERSION), Get(m, MODE), Get(m, FINGERPRINT), exp, 0);
  }

  // ------------------------------------------------------------ round trip

  predicate IsKey(key: string) { key != "" && forall i | 0 <= i < |key| :: key[i] != '=' }

  lemma RecordReadsBack(key: string, value: string)
    requires IsKey(key)
    ensures IsPair(Record(key, value)) && KeyOf(Record(key, value)) == key && ValueOf(Record(key, value)) == value
  {
    var r := Record(key, value);
    assert r[|key|] == '=';
    assert forall i | 0 <= i < |key| :: r[i] == key[i];
    IndexByteUnique(r, '=', |key|);
    assert r[..|key|] == key && r[|key| + 1..] == value;
  }

  /** When only one text carries a key, that text is what a lookup finds, wherever it stands. */
  lemma {:induction false} LookupSole(records: seq<string>, key: string, r: string)
    requires r in records && HasKey(r, key)
    requires forall i | 0 <= i < |records| && HasKey(records[i], key) :: records[i] == r
    ensures Lookup(records, key) == Some(ValueOf(r))
  {
    hide HasKey;
    var n := |records| - 1;
    if records[n] != r {
      assert records == records[..n] + [records[n]];
      LookupSole(records[..n], key, r);
    }
  }

  /** The six records, as key and value. */
  function Pairs(meta: ShareMeta): seq<(string, string)> {
    [(REPO, meta.repo), (PROJECT, meta.project), (VERSION, meta.version), (MODE, meta.mode),
     (FINGERPRINT, meta.fingerprint), (EXPIRES_AT, FormatInt(meta.expiresAt))]
  }

  ghost predicate GoodPairs(ps: seq<(string, string)>) {
    && (forall i | 0 <= i < |ps| :: IsKey(ps[i].0))
    && (forall i, j | 0 <= i < j < |ps| :: ps[i].0 != ps[j].0)
  }

  lemma KeysDiffer(meta: ShareMeta)
    ensures GoodPairs(Pairs(meta))
  {
    var ps := Pairs(meta);
    assert REPO[0] == 'r' && PROJECT[0] == 'p' && VERSION[0] == 'v' && MODE[0] == 'm' && FINGERPRINT[0] == 'f'
        && EXPIRES_AT[0] == 'e';
    forall i, j | 0 <= i < j < |ps|
      ensures ps[i].0 != ps[j].0
    {
      assert ps[i].0[0] != ps[j].0[0];
    }
  }

  function Printed(ps: seq<(string, string)>): (r: seq<string>)
    ensures |r| == |ps| && forall i | 0 <= i < |ps| :: r[i] == Record(ps[i].0, ps[i].1)
  {
    seq(|ps|, i requires 0 <= i < |ps| => Record(ps[i].0, ps[i].1))
  }

  /** Whatever order the records arrive in, each key reads back its own value. */
  lemma LookupPrinted(ps: seq<(string, string)>, records: seq<string>, k: nat)
    requires GoodPairs(ps) && multiset(records) == multiset(Printed(ps)) && k < |ps|
    ensures Lookup(records, ps[k].0) == Some(ps[k].1)
  {
    var all, r := Printed(ps), Record(ps[k].0, ps[k].1);
    RecordReadsBack(ps[k].0, ps[k].1);
    assert all[k] == r;
    assert r in multiset(all);
    forall i | 0 <= i < |records| && HasKey(records[i], ps[k].0)
      ensures records[i] == r
    {
      assert records[i] in multiset(records);
      assert records[i] in all;
      var j :| 0 <= j < |all| && all[j] == records[i];
      RecordReadsBack(ps[j].0, ps[j].1);
      assert j == k;
    }
    LookupSole(records, ps[k].0, r);
  }

  lemma PairsArePrinted(meta: ShareMeta)
    ensures Printed(Pairs(meta)) == BuildTXT(meta)
  {
    hide FormatInt, Record;
  }

  /** Reading the printed records, in any order, gives the metadata back, the port aside. */
  lemma AnyOrderReadsBack(meta: ShareMeta, records: seq<string>)
    requires InInt64(meta.expiresAt)
    requires multiset(records) == multiset(BuildTXT(meta))
    ensures Parsed(records) == meta.(port := 0)
  {
    hide Lookup, GoodPairs, FormatInt;
    var ps := Pairs(meta);
    KeysDiffer(meta);
    PairsArePrinted(meta);
    forall k | 0 <= k < |ps|
      ensures Lookup(records, ps[k].0) == Some(ps[k].1)
    {
      LookupPrinted(ps, records, k);
    }
    SixLookups(meta, records);
    ParseFormat(meta.expiresAt);
  }

  lemma SixLookups(meta: ShareMeta, records: seq<string>)
    requires forall k | 0 <= k < |Pairs(meta)| :: Lookup(records, Pairs(meta)[k].0) == Some(Pairs(meta)[k].1)
    ensures TextAt(records, REPO) == meta.repo && TextAt(records, PROJECT) == meta.project
    ensures TextAt(records, VERSION) == meta.version && TextAt(records, MODE) == meta.mode
    ensures TextAt(records, FINGERPRINT) == meta.fingerprint && TextAt(records, EXPIRES_AT) == FormatInt(meta.expiresAt)
  {
    hide Lookup, FormatInt;
    var ps := Pairs(meta);
    assert ps[0] == (REPO, meta.repo) && ps[1] == (PROJECT, meta.project) && ps[2] == (VERSION, meta.version);
    assert ps[3] == (MODE, meta.mode) && ps[4] == (FINGERPRINT, meta.fingerprint)
        && ps[5] == (EXPIRES_AT, FormatInt(meta.expiresAt));
  }

  /** The advertised text determines the metadata: two shares print alike only if they agree but for the port. */
  lemma PrintedAlikeMeansSame(x: ShareMeta, y: ShareMeta)
    requires InInt64(x.expiresAt) && InInt64(y.expiresAt)
    ensures BuildTXT(x) == BuildTXT(y) <==> x.(port := 0) == y.(port := 0)
  {
    AnyOrderReadsBack(x, BuildTXT(x));
    AnyOrderReadsBack(y, BuildTXT(y));
  }

  predicate KnownKey(key: string) {
    key == REPO || key == PROJECT || key == VERSION || key == MODE || key == FINGERPRINT || key == EXPIRES_AT
  }

  lemma {:induction false} LookupSkips(before: seq<string>, r: string, after: seq<string>, key: string)
    requires !HasKey(r, key)
    ensures Lookup(before + [r] + after, key) == Lookup(before + after, key)
  {
    hide HasKey;
    var with, without := before + [r] + after, before + after;
    if after == [] {
      assert with[..|with| - 1] == before && without == before;
    } else {
      var n := |after| - 1;
      assert with[..|with| - 1] == before + [r] + after[..n];
      assert without[..|without| - 1] == before + after[..n];
      LookupSkips(before, r, after[..n], key);
    }
  }

  /** A record that is no pair, or carries a key of its own, changes nothing wherever it stands. */
  lemma StrangersAreIgnored(before: seq<string>, r: string, after: seq<string>)
    requires IsPair(r) ==> !KnownKey(KeyOf(r))
    ensures Parsed(before + [r] + after) == Parsed(before + after)
  {
    LookupSkips(before, r, after, REPO);
    LookupSkips(before, r, after, PROJECT);
    LookupSkips(before, r, after, VERSION);
    LookupSkips(before, r, after, MODE);
    LookupSkips(before, r, after, FINGERPRINT);
    LookupSkips(before, r, after, EXPIRES_AT);
    hide Lookup;
  }
}
