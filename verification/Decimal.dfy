/** Decimal text of integers: what std::to_string yields for a status code or a body
    size, and the text that LogStream::formatInteger has to leave in its buffer. */
module Decimal {

  const ZERO := '0' as int

  function Digit(d: int): (c: char)
    requires 0 <= d < 10
    ensures IsDigit(c) && DigitValue(c) == d
  {
    (ZERO + d) as char
  }

  predicate IsDigit(c: char) {
    '0' <= c <= '9'
  }

  function DigitValue(c: char): (d: nat)
    requires IsDigit(c)
  {
    c as int - ZERO
  }

  function Abs(n: int): (a: nat) {
    if n < 0 then -n else n
  }

  /** Digits of n, most significant first. */
  function NatText(n: nat): (s: string)
    ensures |s| >= 1
  {
    if n < 10 then [Digit(n)] else NatText(n / 10) + [Digit(n % 10)]
  }

  function Text(n: int): (s: string) {
    if n < 0 then "-" + NatText(-n) else NatText(n)
  }

  predicate AllDigits(s: string) {
    forall i :: 0 <= i < |s| ==> IsDigit(s[i])
  }

  /** Value of a digit string, read from the left. */
  function NatValue(s: string): (n: nat)
    requires AllDigits(s)
  {
    if s == "" then 0 else 10 * NatValue(s[..|s| - 1]) + DigitValue(s[|s| - 1])
  }

  datatype Parsed = Number(value: int) | Malformed

  /** Reads an optionally signed, non-empty digit string. */
  function Parse(s: string): (r: Parsed) {
    if s != "" && AllDigits(s) then Number(NatValue(s))
    else if |s| > 1 && s[0] == '-' && AllDigits(s[1..]) then Number(0 - NatValue(s[1..]))
    else Malformed
  }

  /** No redundant leading zero. */
  predicate CanonicalNat(s: string) {
    s != "" && AllDigits(s) && (s[0] == '0' ==> |s| == 1)
  }

  predicate Canonical(s: string) {
    CanonicalNat(s) || (|s| > 1 && s[0] == '-' && CanonicalNat(s[1..]) && s[1] != '0')
  }

  lemma {:induction false} NatTextIsCanonical(n: nat)
    ensures CanonicalNat(NatText(n))
    ensures NatText(n)[0] == '0' <==> n == 0
    ensures NatValue(NatText(n)) == n
  {
    if n < 10 {
      assert NatText(n)[..0] == "";
    } else {
      NatTextIsCanonical(n / 10);
      var s := NatText(n);
      assert s[..|s| - 1] == NatText(n / 10);
    }
  }

  /** The text is canonical and reads back as the number it was made from. */
  lemma TextRoundTrip(n: int)
    ensures Canonical(Text(n))
    ensures Parse(Text(n)) == Number(n)
  {
    NatTextIsCanonical(Abs(n));
    if n < 0 {
      assert Text(n)[1..] == NatText(-n);
    }
  }

  lemma TenTimesPlus(n: nat, d: nat)
    requires d < 10
    ensures (10 * n + d) / 10 == n && (10 * n + d) % 10 == d
  {
  }

  lemma {:induction false} NatTextIsUnique(s: string)
    requires CanonicalNat(s)
    ensures NatText(NatValue(s)) == s
    ensures NatValue(s) == 0 <==> s == "0"
    decreases |s|
  {
    var front, last := s[..|s| - 1], s[|s| - 1];
    assert s == front + [last];
    if front == "" {
      assert NatValue(s) == DigitValue(last);
      assert s == [Digit(DigitValue(last))];
    } else {
      NatTextIsUnique(front);
      TenTimesPlus(NatValue(front), DigitValue(last));
    }
  }

  /** Canonical strings and integers are in bijection: no other canonical string denotes n. */
  lemma CanonicalTextIsUnique(s: string)
    requires Canonical(s)
    ensures Parse(s).Number? && Text(Parse(s).value) == s
  {
    if CanonicalNat(s) {
      NatTextIsUnique(s);
    } else {
      NatTextIsUnique(s[1..]);
      assert s == "-" + s[1..];
    }
  }

  function Pow10(k: nat): (p: nat)
    ensures p >= 1
  {
    if k == 0 then 1 else 10 * Pow10(k - 1)
  }

  lemma {:induction false} NatTextLength(n: nat, k: nat)
    requires k >= 1 && n < Pow10(k)
    ensures |NatText(n)| <= k
  {
    if n < 10 {
    } else {
      assert k > 1;
      NatTextLength(n / 10, k - 1);
    }
  }

  const INT64_MIN := -0x8000_0000_0000_0000
  const UINT64_MAX := 0xFFFF_FFFF_FFFF_FFFF

  /** Every signed or unsigned 64-bit value fits in 20 characters. */
  lemma TextLength(n: int)
    requires INT64_MIN <= n <= UINT64_MAX
    ensures |Text(n)| <= 20
  {
    assert Pow10(4) == 10000;
    assert Pow10(8) == 10000 * Pow10(4);
    assert Pow10(12) == 10000 * Pow10(8);
    assert Pow10(16) == 10000 * Pow10(12);
    assert Pow10(20) == 10000 * Pow10(16);
    assert Pow10(19) == 1000 * Pow10(16);
    NatTextLength(Abs(n), if n < 0 then 19 else 20);
  }
}
