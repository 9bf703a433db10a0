/** Exact decimals by value: a coefficient and the fewest decimal places that
    hold it. Go's decimal.Decimal has many representations of one value, but
    String, Sub, Add, Neg and IsZero depend on the value alone.
 */
module Decimals {
  import opened Text
  import opened Digits

  datatype Places = Dec(coef: int, scale: nat)

  predicate Reduced(d: Places) { d.scale == 0 || d.coef % 10 != 0 }

  type Decimal = d: Places | Reduced(d) witness Dec(0, 0)

  const ZERO: Decimal := Dec(0, 0)

  function Reduce(coef: int, scale: nat): Decimal
    decreases scale
  {
    if scale > 0 && coef % 10 == 0 then Reduce(coef / 10, scale - 1) else Dec(coef, scale)
  }

  /** The value counted in units of 10^-k. */
  function Units(d: Decimal, k: nat): int
    requires d.scale <= k
  {
    d.coef * Pow10(k - d.scale)
  }

  function Max(a: nat, b: nat): nat { if a >= b then a else b }

  function Sub(a: Decimal, b: Decimal): Decimal {
    var k := Max(a.scale, b.scale);
    Reduce(Units(a, k) - Units(b, k), k)
  }

  function Neg(a: Decimal): Decimal { Dec(-a.coef, a.scale) }

  function Add(a: Decimal, b: Decimal): Decimal { Sub(a, Neg(b)) }

  lemma {:induction false} ReduceUnits(coef: int, scale: nat, k: nat)
    requires scale <= k
    ensures Reduce(coef, scale).scale <= scale
    ensures Units(Reduce(coef, scale), k) == coef * Pow10(k - scale)
    decreases scale
  {
    if scale > 0 && coef % 10 == 0 {
      ReduceUnits(coef / 10, scale - 1, k);
      var p := Pow10(k - scale);
      assert Pow10(k - (scale - 1)) == 10 * p;
      assert coef / 10 * (10 * p) == (coef / 10 * 10) * p;
    }
  }

  lemma Associate(x: int, y: int, z: int)
    ensures x * (y * z) == x * y * z
  {
  }

  lemma DistributeSub(x: int, y: int, z: int)
    ensures (x - y) * z == x * z - y * z
  {
  }

  lemma UnitsRescale(d: Decimal, k: nat, m: nat)
    requires d.scale <= k <= m
    ensures Units(d, m) == Units(d, k) * Pow10(m - k)
  {
    hide Pow10;
    PowAdd(k - d.scale, m - k);
    Associate(d.coef, Pow10(k - d.scale), Pow10(m - k));
  }

  /** Values that count the same number of units are the same decimal. */
  lemma UnitsInjective(a: Decimal, b: Decimal, k: nat)
    requires a.scale <= k && b.scale <= k
    requires Units(a, k) == Units(b, k)
    ensures a == b
  {
    if a.scale <= b.scale { UnitsInjectiveOrdered(a, b, k); } else { UnitsInjectiveOrdered(b, a, k); }
  }

  lemma UnitsInjectiveOrdered(a: Decimal, b: Decimal, k: nat)
    requires a.scale <= b.scale <= k
    requires Units(a, k) == Units(b, k)
    ensures a == b
  {
    UnitsRescale(a, b.scale, k);
    var p := Pow10(k - b.scale);
    assert Units(a, b.scale) * p == b.coef * p;
    Cancel(Units(a, b.scale), b.coef, p);
    if a.scale < b.scale {
      TenDivides(a.coef, b.scale - a.scale);
    }
  }

  lemma TenDivides(coef: int, n: nat)
    requires n > 0
    ensures coef * Pow10(n) % 10 == 0
  {
    var q := Pow10(n - 1);
    assert coef * (10 * q) == 10 * (coef * q);
  }

  lemma Cancel(x: int, y: int, p: int)
    requires p > 0 && x * p == y * p
    ensures x == y
  {
    assert (x - y) * p == 0;
  }

  /** Subtraction is exact, at every scale that holds both operands. */
  lemma SubUnits(a: Decimal, b: Decimal, k: nat)
    requires a.scale <= k && b.scale <= k
    ensures Sub(a, b).scale <= k
    ensures Units(Sub(a, b), k) == Units(a, k) - Units(b, k)
  {
    hide Pow10, Units, Reduce;
    var m := Max(a.scale, b.scale);
    ReduceUnits(Units(a, m) - Units(b, m), m, k);
    UnitsRescale(a, m, k);
    UnitsRescale(b, m, k);
    DistributeSub(Units(a, m), Units(b, m), Pow10(k - m));
  }

  lemma AddUnits(a: Decimal, b: Decimal, k: nat)
    requires a.scale <= k && b.scale <= k
    ensures Add(a, b).scale <= k
    ensures Units(Add(a, b), k) == Units(a, k) + Units(b, k)
  {
    hide Sub;
    SubUnits(a, Neg(b), k);
    NegateProduct(b.coef, Pow10(k - b.scale));
  }

  lemma NegateProduct(x: int, p: int)
    ensures -x * p == -(x * p)
  {
  }

  /** A difference is zero exactly when both sides are the same value. */
  lemma SubZero(a: Decimal, b: Decimal)
    ensures Sub(a, b) == ZERO <==> a == b
    ensures Sub(a, b).coef == 0 <==> a == b
  {
    var k := Max(a.scale, b.scale);
    SubUnits(a, b, k);
    var d := Sub(a, b);
    if d.coef == 0 {
      assert Units(d, k) == 0;
      UnitsInjective(a, b, k);
    }
    if a == b {
      UnitsInjective(d, ZERO, k);
    }
  }

  // ---------------------------------------------------------------- text form

  function Abs(x: int): nat { if x < 0 then -x else x }

  function Quotient(a: nat, p: nat): nat
    requires p >= 1
  {
    a / p
  }

  function Remainder(a: nat, p: nat): (r: nat)
    requires p >= 1
    ensures r < p && Quotient(a, p) * p + r == a
  {
    a % p
  }

  function IntegerPart(d: Decimal): nat { Quotient(Abs(d.coef), Pow10(d.scale)) }

  function Fraction(d: Decimal): nat { Remainder(Abs(d.coef), Pow10(d.scale)) }

  function PrintUnsigned(whole: nat, fraction: nat, scale: nat): string {
    Show(whole) + (if scale == 0 then "" else "." + Pad(fraction, scale))
  }

  /** decimal.String: optional sign, integer part, and a fraction without trailing zeros. */
  function Print(d: Decimal): string {
    (if d.coef < 0 then "-" else "") + PrintUnsigned(IntegerPart(d), Fraction(d), d.scale)
  }

  function Find(s: string, c: char): (i: nat)
    ensures i <= |s| && (i < |s| ==> s[i] == c) && c !in s[..i]
  {
    if s == [] || s[0] == c then 0 else
      assert forall j :: 0 < j < 1 + Find(s[1..], c) ==> s[j] == s[1..][..Find(s[1..], c)][j - 1];
      1 + Find(s[1..], c)
  }

  /** The digits before and after the point. */
  function SplitPoint(s: string): Option<(string, string)> {
    var dot := Find(s, '.');
    var whole := s[..dot];
    var fraction := if dot < |s| then s[dot + 1..] else "";
    if whole == "" || !AllDigits(whole) || !AllDigits(fraction) || (dot < |s| && fraction == "") then None
    else Some((whole, fraction))
  }

  function ReadUnsigned(s: string): Option<Decimal> {
    match SplitPoint(s)
    case None => None
    case Some(parts) => Some(Reduce(NatOf(parts.0) * Pow10(|parts.1|) + NatOf(parts.1), |parts.1|))
  }

  /** decimal.NewFromString on the plain forms. Other spellings it accepts are never canonical. */
  function Read(s: string): Option<Decimal> {
    if s != [] && s[0] == '-' then
      match ReadUnsigned(s[1..]) case None => None case Some(d) => Some(Neg(d))
    else ReadUnsigned(s)
  }

  lemma SplitJoin(whole: string, fraction: string)
    requires whole != "" && AllDigits(whole) && AllDigits(fraction)
    ensures SplitPoint(whole + (if fraction == "" then "" else "." + fraction)) == Some((whole, fraction))
  {
    var rest := if fraction == "" then "" else "." + fraction;
    var s := whole + rest;
    FindAfterDigits(whole, rest);
    assert s[..|whole|] == whole;
    if fraction != "" { assert s[|whole| + 1..] == fraction; }
  }

  lemma SplitPrinted(whole: nat, fraction: nat, scale: nat)
    ensures PrintUnsigned(whole, fraction, scale) != [] && PrintUnsigned(whole, fraction, scale)[0] != '-'
    ensures SplitPoint(PrintUnsigned(whole, fraction, scale)) == Some((Show(whole), Pad(fraction, scale)))
  {
    ShowNat(whole);
    PadNat(fraction, scale);
    hide SplitPoint, Show, Pad;
    var w, f := Show(whole), Pad(fraction, scale);
    SplitJoin(w, f);
    assert PrintUnsigned(whole, fraction, scale) == w + (if f == "" then "" else "." + f);
    assert IsDigit(w[0]);
  }

  lemma Recompose(whole: nat, fraction: nat, scale: nat)
    requires fraction < Pow10(scale)
    ensures ReadUnsigned(PrintUnsigned(whole, fraction, scale)) == Some(Reduce(whole * Pow10(scale) + fraction, scale))
  {
    hide PrintUnsigned, SplitPoint, Reduce, NatOf, Show, Pad;
    SplitPrinted(whole, fraction, scale);
    ShowNat(whole);
    PadNat(fraction, scale);
    SmallMod(fraction, Pow10(scale));
  }

  lemma SmallMod(a: nat, p: nat)
    requires a < p
    ensures a % p == a
  {
  }

  lemma ReadUnsignedPrint(d: Decimal)
    requires d.coef >= 0
    ensures ReadUnsigned(PrintUnsigned(IntegerPart(d), Fraction(d), d.scale)) == Some(d)
  {
    var p := Pow10(d.scale);
    var w, f := IntegerPart(d), Fraction(d);
    Recompose(w, f, d.scale);
  }

  lemma {:induction false} FindAfterDigits(digits: string, rest: string)
    requires AllDigits(digits)
    requires rest == "" || rest[0] == '.'
    ensures Find(digits + rest, '.') == |digits|
  {
    if digits == "" {
      assert digits + rest == rest;
    } else {
      assert (digits + rest)[1..] == digits[1..] + rest;
      FindAfterDigits(digits[1..], rest);
    }
  }

  /** The printed form reads back as the same value. */
  lemma ReadPrint(d: Decimal)
    ensures Read(Print(d)) == Some(d)
  {
    var m: Decimal := Dec(Abs(d.coef), d.scale);
    ReadUnsignedPrint(m);
    SplitPrinted(IntegerPart(d), Fraction(d), d.scale);
    var t := PrintUnsigned(IntegerPart(d), Fraction(d), d.scale);
    if d.coef < 0 {
      assert Print(d)[1..] == t;
    } else {
      assert Print(d) == t;
    }
  }

  lemma PrintInjective(a: Decimal, b: Decimal)
    requires Print(a) == Print(b)
    ensures a == b
  {
    ReadPrint(a);
    ReadPrint(b);
  }

  predicate Fits(d: Decimal, whole: nat, places: nat) {
    |Show(IntegerPart(d))| <= whole && d.scale <= places
  }

  /** validExactDecimal: at most 26 digits before the point and 18 after it. */
  predicate WithinContract(d: Decimal) { Fits(d, 26, 18) }

  /** A digit bound is a bound on the value: 26.18 means fewer than 10^44 units of 10^-18. */
  lemma FitsBound(d: Decimal, whole: nat, places: nat)
    requires whole >= 1
    ensures Fits(d, whole, places) <==> d.scale <= places && Abs(Units(d, places)) < Pow10(whole + places)
  {
    ShowLength(IntegerPart(d), whole);
    if d.scale <= places {
      PlacesBound(Abs(d.coef), d.scale, whole, places);
      UnitsAbs(d, places);
    }
  }

  lemma UnitsAbs(d: Decimal, k: nat)
    requires d.scale <= k
    ensures Abs(Units(d, k)) == Abs(d.coef) * Pow10(k - d.scale)
  {
    var q := Pow10(k - d.scale);
    if d.coef < 0 { assert d.coef * q == -(-d.coef * q); }
  }

  lemma PlacesBound(a: nat, scale: nat, whole: nat, places: nat)
    requires scale <= places
    ensures a / Pow10(scale) < Pow10(whole) <==> a * Pow10(places - scale) < Pow10(whole + places)
  {
    var p, q, w := Pow10(scale), Pow10(places - scale), Pow10(whole);
    DivideBelow(a, p, w);
    PowAdd(whole, scale);
    PowAdd(whole + scale, places - scale);
    assert whole + scale + (places - scale) == whole + places;
    ScaleBelow(a, w * p, q);
  }

  lemma ScaleBelow(a: int, b: int, q: int)
    requires q >= 1
    ensures a < b <==> a * q < b * q
  {
    if a < b { assert (b - a) * q >= 1; } else { assert (a - b) * q >= 0; }
  }

  lemma DivideBelow(a: nat, p: nat, b: nat)
    requires p >= 1
    ensures a / p < b <==> a < b * p
  {
    var q, r := a / p, a % p;
    assert a == q * p + r;
    if q < b { assert q * p <= (b - 1) * p == b * p - p; }
    if q >= b { assert q * p >= b * p; }
  }
}
