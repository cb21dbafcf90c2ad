/** Decimal text of integers: the strconv readers and printers, with their 64-bit limits. */
module Decimal {
  import opened Prelude

  const MAX_INT64: int := 0x7FFF_FFFF_FFFF_FFFF
  const MIN_INT64: int := -0x8000_0000_0000_0000

  predicate IsDigit(c: char) { '0' <= c <= '9' }

  predicate AllDigits(s: string) { forall i | 0 <= i < |s| :: IsDigit(s[i]) }

  predicate InInt64(i: int) { MIN_INT64 <= i <= MAX_INT64 }

  function DigitChar(d: nat): (c: char)
    requires d < 10
    ensures IsDigit(c) && DigitValue(c) == d
  {
    ('0' as int + d) as char
  }

  function DigitValue(c: char): nat
    requires IsDigit(c)
  {
    c as int - '0' as int
  }

  function Value(s: string): nat
    requires AllDigits(s)
  {
    if s == "" then 0 else Value(s[..|s| - 1]) * 10 + DigitValue(s[|s| - 1])
  }

  function FormatNat(n: nat): (s: string)
    ensures s != "" && AllDigits(s) && Value(s) == n
  {
    if n < 10 then [DigitChar(n)]
    else
      var s := FormatNat(n / 10) + [DigitChar(n % 10)];
      assert s[..|s| - 1] == FormatNat(n / 10);
      s
  }

  function FormatInt(i: int): string {
    if i < 0 then "-" + FormatNat(-i) else FormatNat(i)
  }

  datatype Number = Malformed | OutOfRange(negative: bool) | Number(value: int)

  const MAX_UINT64: nat := 0xFFFF_FFFF_FFFF_FFFF

  datatype Scan = BadDigit | Overflow | Total(n: nat)

  /** The scan behind strconv: it stops at the first non-digit, or as soon as 64 unsigned bits overflow. */
  function ScanFrom(s: string, i: nat, n: nat): Scan
    requires i <= |s|
    decreases |s| - i
  {
    if i == |s| then Total(n)
    else if !IsDigit(s[i]) then BadDigit
    else
      var m := n * 10 + DigitValue(s[i]);
      if m > MAX_UINT64 then Overflow else ScanFrom(s, i + 1, m)
  }

  lemma {:induction false} ScanReadsValue(s: string, i: nat)
    requires i <= |s| && AllDigits(s[..i]) && Value(s[..i]) <= MAX_UINT64
    ensures AllDigits(s) && Value(s) <= MAX_UINT64 ==> ScanFrom(s, i, Value(s[..i])) == Total(Value(s))
    ensures AllDigits(s) && Value(s) > MAX_UINT64 ==> ScanFrom(s, i, Value(s[..i])) == Overflow
    ensures !AllDigits(s) ==> !ScanFrom(s, i, Value(s[..i])).Total?
    decreases |s| - i
  {
    if i == |s| {
      assert s[..i] == s;
    } else if IsDigit(s[i]) {
      var p := s[..i + 1];
      assert p[..|p| - 1] == s[..i];
      if Value(p) <= MAX_UINT64 {
        ScanReadsValue(s, i + 1);
      } else if AllDigits(s) {
        ValueGrows(s, i + 1);
      }
    }
  }

  lemma {:induction false} ValueGrows(s: string, i: nat)
    requires AllDigits(s) && i <= |s|
    ensures Value(s[..i]) <= Value(s)
    decreases |s| - i
  {
    if i == |s| {
      assert s[..i] == s;
    } else {
      assert s[..i + 1][..i] == s[..i];
      ValueGrows(s, i + 1);
    }
  }

  predicate Signed(s: string) { s != "" && (s[0] == '-' || s[0] == '+') }

  function Unsigned(s: string): string { if Signed(s) then s[1..] else s }

  /** strconv's base-10 reading of a signed 64-bit integer. */
  function ParseInt64(s: string): (r: Number)
    ensures var d := Unsigned(s);
      if d == "" || !AllDigits(d) then !r.Number?
      else
        var v: int := if Signed(s) && s[0] == '-' then -(Value(d) as int) else Value(d);
        r == if InInt64(v) then Number(v) else OutOfRange(v < 0)
  {
    var d := Unsigned(s);
    var negative := Signed(s) && s[0] == '-';
    assert d[..0] == "";
    ScanReadsValue(d, 0);
    if d == "" then Malformed
    else
      match ScanFrom(d, 0, 0)
      case BadDigit => Malformed
      case Overflow => OutOfRange(negative)
      case Total(n) =>
        var v: int := if negative then -(n as int) else n;
        if InInt64(v) then Number(v) else OutOfRange(negative)
  }

  /** Digits that overflow hide whatever follows them: the range error comes before the bad character. */
  lemma OverflowHidesTail(d: string, tail: string)
    requires AllDigits(d) && Value(d) > MAX_UINT64
    ensures ParseInt64(d + tail) == OutOfRange(false)
  {
    assert d != "" && IsDigit((d + tail)[0]);
    assert (d + tail)[..0] == "";
    OverflowFrom(d, tail, 0);
  }

  lemma {:induction false} OverflowFrom(d: string, tail: string, i: nat)
    requires i <= |d| && AllDigits(d) && Value(d) > MAX_UINT64
    requires (d + tail)[..i] == d[..i] && Value(d[..i]) <= MAX_UINT64
    ensures ScanFrom(d + tail, i, Value(d[..i])) == Overflow
    decreases |d| - i
  {
    assert i < |d| by { assert d[..|d|] == d; }
    var p := d[..i + 1];
    assert (d + tail)[i] == d[i] && p[..|p| - 1] == d[..i];
    if Value(p) <= MAX_UINT64 {
      assert (d + tail)[..i + 1] == p;
      OverflowFrom(d, tail, i + 1);
    }
  }

  /** strconv.Atoi: the value, or nothing on any error. */
  function Atoi(s: string): Option<int> {
    match ParseInt64(s)
    case Number(v) => Some(v)
    case _ => None
  }

  /** The value strconv.ParseInt returns when its error is ignored: 0 or the nearest bound. */
  function ParseIntOrBound(s: string): int {
    match ParseInt64(s)
    case Malformed => 0
    case OutOfRange(negative) => if negative then MIN_INT64 else MAX_INT64
    case Number(v) => v
  }

  /** Out-of-range digits read as the nearest bound, and what is no number as 0. */
  lemma NearestBound(d: string, s: string)
    requires d != "" && AllDigits(d)
    ensures ParseIntOrBound(d) == if Value(d) > 0x7FFF_FFFF_FFFF_FFFF then 0x7FFF_FFFF_FFFF_FFFF else Value(d)
    ensures ParseIntOrBound("-" + d) ==
            if Value(d) > 0x8000_0000_0000_0000 then -0x8000_0000_0000_0000 else -(Value(d) as int)
    ensures s == "" || !(IsDigit(s[0]) || s[0] == '-' || s[0] == '+') ==> ParseIntOrBound(s) == 0
  {
    assert IsDigit(d[0]);
    assert ("-" + d)[1..] == d;
  }

  lemma ParseFormat(i: int)
    requires InInt64(i)
    ensures ParseInt64(FormatInt(i)) == Number(i)
  {
    var n := if i < 0 then -i else i;
    var d := FormatNat(n);
    if i < 0 {
      assert ("-" + d)[1..] == d;
    } else {
      assert IsDigit(d[0]);
    }
  }

  lemma AtoiDigits(s: string)
    requires s != "" && AllDigits(s)
    ensures Atoi(s) == if Value(s) <= MAX_INT64 then Some(Value(s)) else None
  {
    assert IsDigit(s[0]);
  }

  /** Zero-padded decimal of a fixed width, as %0*d prints it. */
  function Padded(n: nat, width: nat): (s: string)
    ensures AllDigits(s) && Value(s) == n
    ensures |s| >= width
  {
    PadTo(FormatNat(n), width)
  }

  function PadTo(s: string, width: nat): (r: string)
    requires AllDigits(s)
    ensures AllDigits(r) && Value(r) == Value(s) && |r| == if |s| < width then width else |s|
    decreases width - |s|
  {
    if |s| < width then
      ValueLeadingZero(s);
      PadTo("0" + s, width)
    else s
  }

  lemma {:induction false} ValueLeadingZero(s: string)
    requires AllDigits(s)
    ensures AllDigits("0" + s) && Value("0" + s) == Value(s)
  {
    if s == "" {
      assert "0" + s == "0" && "0"[..0] == "";
    } else {
      ValueLeadingZero(s[..|s| - 1]);
      assert ("0" + s)[..|s|] == "0" + s[..|s| - 1];
    }
  }

  function Pow10(k: nat): nat { if k == 0 then 1 else 10 * Pow10(k - 1) }

  lemma {:induction false} ShortWhenSmall(n: nat, k: nat)
    requires n < Pow10(k) && k > 0
    ensures |FormatNat(n)| <= k
    decreases k
  {
    if n >= 10 {
      assert Pow10(1) == 10 * Pow10(0) == 10;
      ShortWhenSmall(n / 10, k - 1);
    }
  }

  /** A pairing code is six digits that spell the drawn number, so distinct draws differ. */
  function PairingCode(n: nat): (code: string)
    requires n < 1_000_000
    ensures |code| == 6 && AllDigits(code) && Value(code) == n
  {
    assert Pow10(6) == 1_000_000;
    ShortWhenSmall(n, 6);
    Padded(n, 6)
  }
}
