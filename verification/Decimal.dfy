/**
  Decimal numbers in text: fmt's %020d, strconv.Itoa, strconv.ParseUint and strconv.Atoi.
 */
module Decimal {
  import opened Bytes

  datatype Option<+T> = None | Some(value: T)

  predicate IsDigit(c: char) { '0' <= c <= '9' }

  function DigitChar(d: int): (c: char)
    requires 0 <= d < 10
    ensures IsDigit(c) && DigitValue(c) == d
  {
    '0' + d as char
  }

  function DigitValue(c: char): (d: int)
    requires IsDigit(c)
    ensures 0 <= d < 10
  {
    c as int - '0' as int
  }

  predicate AllDigits(s: string) { forall i :: 0 <= i < |s| ==> IsDigit(s[i]) }

  function Value(s: string): (n: nat)
    requires AllDigits(s)
  {
    if s == "" then 0 else Value(s[..|s| - 1]) * 10 + DigitValue(s[|s| - 1])
  }

  /** strconv.ParseUint(s, 10, 64). */
  function ParseUint(s: string): Option<uint64> {
    if s != "" && AllDigits(s) && Value(s) < B64 then Some(Value(s)) else None
  }

  /** strconv.Atoi for 64-bit ints. */
  function Atoi(s: string): Option<int64> {
    var negative := s != "" && s[0] == '-';
    var digits := if s != "" && (s[0] == '-' || s[0] == '+') then s[1..] else s;
    if digits == "" || !AllDigits(digits) then None
    else
      var v: int := Value(digits);
      var n := if negative then -v else v;
      if -0x8000_0000_0000_0000 <= n < 0x8000_0000_0000_0000 then Some(n) else None
  }

  /** The lowest w decimal digits of n, with leading zeros. */
  function Padded(n: nat, w: nat): (s: string)
    ensures |s| == w && AllDigits(s)
  {
    if w == 0 then "" else Padded(n / 10, w - 1) + [DigitChar(n % 10)]
  }

  function ItoaNat(n: nat): (s: string)
    ensures s != "" && AllDigits(s)
  {
    if n < 10 then [DigitChar(n)] else ItoaNat(n / 10) + [DigitChar(n % 10)]
  }

  function Itoa(n: int): (s: string)
    ensures s != ""
  {
    if n < 0 then "-" + ItoaNat(-n) else ItoaNat(n)
  }

  function Pow10(w: nat): (p: nat)
    ensures p >= 1
  {
    if w == 0 then 1 else 10 * Pow10(w - 1)
  }

  lemma ValueSnoc(s: string, d: int)
    requires AllDigits(s) && 0 <= d < 10
    ensures AllDigits(s + [DigitChar(d)]) && Value(s + [DigitChar(d)]) == 10 * Value(s) + d
  {
    assert (s + [DigitChar(d)])[..|s|] == s;
  }

  lemma {:induction false} ValuePadded(n: nat, w: nat)
    requires n < Pow10(w)
    ensures Value(Padded(n, w)) == n
  {
    if w > 0 {
      ValuePadded(n / 10, w - 1);
      ValueSnoc(Padded(n / 10, w - 1), n % 10);
    }
  }

  lemma {:induction false} ValueItoa(n: nat)
    ensures Value(ItoaNat(n)) == n
  {
    if n < 10 {
      ValueSnoc("", n);
      assert "" + [DigitChar(n)] == [DigitChar(n)];
    } else {
      ValueItoa(n / 10);
      ValueSnoc(ItoaNat(n / 10), n % 10);
    }
  }

  lemma TwentyDigits()
    ensures B64 <= Pow10(20)
  {
    assert Pow10(4) == 10000;
    assert Pow10(8) == 10000 * Pow10(4);
    assert Pow10(12) == 10000 * Pow10(8);
    assert Pow10(16) == 10000 * Pow10(12);
    assert Pow10(20) == 10000 * Pow10(16);
  }

  /** Every 64-bit offset survives the trip through a 20-digit name. */
  lemma PaddedRoundTrip(n: uint64)
    ensures ParseUint(Padded(n, 20)) == Some(n)
  {
    TwentyDigits();
    ValuePadded(n, 20);
  }

  /** Every int survives strconv.Itoa followed by strconv.Atoi. */
  lemma ItoaRoundTrip(n: int64)
    ensures Atoi(Itoa(n)) == Some(n)
  {
    var i: int := n;
    var m: nat := if i < 0 then -i else i;
    ValueItoa(m);
    assert Itoa(n) == if n < 0 then "-" + ItoaNat(m) else ItoaNat(m);
    assert n < 0 ==> Itoa(n)[1..] == ItoaNat(m);
    assert IsDigit(ItoaNat(m)[0]);
  }

  // ---------- file names of a segment ----------

  const LOG: string := ".log"
  const INDEX: string := ".index"

  function LogName(base: uint64): string { Padded(base, 20) + LOG }

  function IndexName(base: uint64): string { Padded(base, 20) + INDEX }

  predicate HasSuffix(s: string, suffix: string) {
    |suffix| <= |s| && s[|s| - |suffix|..] == suffix
  }

  /** The base offset NewCommitLog reads from a directory entry, if it takes the entry at all. */
  function LogBase(name: string): Option<uint64> {
    if HasSuffix(name, LOG) then ParseUint(name[..|name| - |LOG|]) else None
  }

  lemma LogNameRoundTrip(base: uint64)
    ensures LogBase(LogName(base)) == Some(base)
  {
    PaddedRoundTrip(base);
    assert LogName(base)[..20] == Padded(base, 20);
  }

  lemma NamesDistinct(a: uint64, b: uint64)
    ensures LogName(a) != IndexName(b)
    ensures LogBase(IndexName(b)) == None
    ensures a != b ==> LogName(a) != LogName(b) && IndexName(a) != IndexName(b)
  {
    assert LogName(a)[23] == 'g' && IndexName(b)[25] == 'x';
    LogNameRoundTrip(a);
    LogNameRoundTrip(b);
    assert LogName(a)[..20] == IndexName(a)[..20] && LogName(b)[..20] == IndexName(b)[..20];
    assert LogName(a) == LogName(a)[..20] + LOG && LogName(b) == LogName(b)[..20] + LOG;
  }
}
