/** Printing and reading natural numbers in base ten. */
module Digits {

  function Pow10(n: nat): (p: nat)
    ensures p >= 1
  {
    if n == 0 then 1 else 10 * Pow10(n - 1)
  }

  predicate IsDigit(c: char) { '0' <= c <= '9' }

  function DigitChar(d: nat): (c: char)
    requires d < 10
    ensures IsDigit(c)
  {
    '0' + d as char
  }

  function DigitOf(c: char): (d: nat)
    requires IsDigit(c)
    ensures d < 10
  {
    (c - '0') as nat
  }

  predicate AllDigits(s: string) { forall i :: 0 <= i < |s| ==> IsDigit(s[i]) }

  /** The number a string of digits denotes. */
  function NatOf(s: string): nat
    requires AllDigits(s)
  {
    if s == [] then 0 else 10 * NatOf(s[..|s| - 1]) + DigitOf(s[|s| - 1])
  }

  /** Shortest decimal form, as strconv prints it. */
  function Show(n: nat): string {
    if n < 10 then [DigitChar(n)] else Show(n / 10) + [DigitChar(n % 10)]
  }

  /** The last `width` digits of n, zero-padded. */
  function Pad(n: nat, width: nat): string
    decreases width
  {
    if width == 0 then "" else Pad(n / 10, width - 1) + [DigitChar(n % 10)]
  }

  lemma {:induction false} NatOfSnoc(s: string, d: nat)
    requires AllDigits(s) && d < 10
    ensures AllDigits(s + [DigitChar(d)])
    ensures NatOf(s + [DigitChar(d)]) == 10 * NatOf(s) + d
  {
    var t := s + [DigitChar(d)];
    assert t[..|t| - 1] == s;
  }

  lemma {:induction false} ShowNat(n: nat)
    ensures Show(n) != [] && AllDigits(Show(n)) && NatOf(Show(n)) == n
  {
    if n < 10 {
      NatOfSnoc("", n);
      assert "" + [DigitChar(n)] == Show(n);
    } else {
      ShowNat(n / 10);
      NatOfSnoc(Show(n / 10), n % 10);
    }
  }

  lemma {:induction false} PadNat(n: nat, width: nat)
    ensures |Pad(n, width)| == width && AllDigits(Pad(n, width))
    ensures NatOf(Pad(n, width)) == n % Pow10(width)
    decreases width
  {
    if width > 0 {
      PadNat(n / 10, width - 1);
      NatOfSnoc(Pad(n / 10, width - 1), n % 10);
      DivModStep(n, Pow10(width - 1));
    }
  }

  lemma DivModStep(n: nat, p: nat)
    requires p >= 1
    ensures n % (10 * p) == 10 * ((n / 10) % p) + n % 10
  {
    var q := n / 10 / p;
    var r := n / 10 % p;
    assert n == 10 * p * q + (10 * r + n % 10) by {
      assert n / 10 == p * q + r;
      assert n == 10 * (p * q + r) + n % 10;
    }
    UniqueRemainder(n, 10 * p, q, 10 * r + n % 10);
  }

  /** Quotient and remainder are determined by their bounds. */
  lemma UniqueRemainder(n: int, m: int, q: int, r: int)
    requires m > 0 && n == m * q + r && 0 <= r < m
    ensures n % m == r && n / m == q
  {
    var q' := n / m;
    assert n == m * q' + n % m;
    assert m * q' - m * q == m * (q' - q) && m * q - m * q' == m * (q - q');
    if q' > q { AtLeastOnce(m, q' - q); }
    if q' < q { AtLeastOnce(m, q - q'); }
  }

  lemma AtLeastOnce(m: int, k: int)
    requires m > 0 && k >= 1
    ensures m * k >= m
  {
    assert m * k == m + m * (k - 1);
    assert m * (k - 1) >= 0;
  }

  /** How many digits are printed: exactly as many as needed. */
  lemma {:induction false} ShowLength(n: nat, k: nat)
    requires k >= 1
    ensures |Show(n)| <= k <==> n < Pow10(k)
    decreases k
  {
    if n >= 10 {
      if k == 1 {
        assert |Show(n / 10)| >= 1 by { ShowNat(n / 10); }
        assert Pow10(1) == 10;
      } else {
        ShowLength(n / 10, k - 1);
      }
    } else {
      PowMonotone(1, k);
      assert Pow10(1) == 10;
    }
  }

  lemma {:induction false} PowMonotone(a: nat, b: nat)
    requires a <= b
    ensures Pow10(a) <= Pow10(b)
    decreases b
  {
    if a < b { PowMonotone(a, b - 1); }
  }

  lemma {:induction false} PowAdd(a: nat, b: nat)
    ensures Pow10(a + b) == Pow10(a) * Pow10(b)
    decreases b
  {
    if b > 0 {
      PowAdd(a, b - 1);
      assert Pow10(a) * (10 * Pow10(b - 1)) == 10 * (Pow10(a) * Pow10(b - 1));
    }
  }
}
