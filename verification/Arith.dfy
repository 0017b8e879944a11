/** Arithmetic shared by the models: cancelling factors, products within 256 bits, powers of ten. */
module Arith {
  import opened Chain

  lemma MulMono(a: int, b: int, c: int)
    requires a <= b && 0 <= c
    ensures a * c <= b * c && c * a <= c * b
  {}

  lemma MulCancel(a: int, b: int, c: int)
    requires 0 < c && a * c <= b * c
    ensures a <= b
  {}

  lemma Assoc(a: int, b: int, c: int)
    ensures a * (b * c) == (a * b) * c
  {}

  lemma MulStrict(a: int, b: int, c: int)
    requires a < b && 0 < c
    ensures a * c < b * c
  {}

  lemma CancelStrict(a: int, b: int, c: int)
    requires 0 < c && a * c < b * c
    ensures a < b
  {}

  /** A product that must fit 256 bits. */
  function CheckedMul(a: nat, b: nat): Option<u256> {
    if a * b <= U256_MAX then Some(a * b) else None
  }

  /** A product of naturals, a natural. */
  function Times(a: nat, b: nat): nat { a * b }

  function Quot(a: nat, b: nat): nat
    requires 0 < b
  {
    a / b
  }

  function Rem(a: nat, b: nat): (r: nat)
    requires 0 < b
    ensures r < b
  {
    a % b
  }

  lemma QuotRem(a: nat, b: nat)
    requires 0 < b
    ensures Times(Quot(a, b), b) + Rem(a, b) == a
  {}

  lemma QuotRemUnique(a: nat, b: nat, q: nat, r: nat)
    requires r < b && a == Times(q, b) + r
    ensures Quot(a, b) == q && Rem(a, b) == r
  {
    assert (q + 1) * b == q * b + b;
    DivisionIsUnique(a, b, q);
  }

  lemma DivisionIsUnique(a: nat, b: nat, q: nat)
    requires 0 < b && q * b <= a < (q + 1) * b
    ensures a / b == q
  {
    var p := a / b;
    assert p * b <= a < (p + 1) * b;
    if p < q { MulMono(p + 1, q, b); }
    if q < p { MulMono(q + 1, p, b); }
  }

  /** Two amounts of at most 128 bits multiply without overflowing a `uint256`. */
  lemma ProductFits(a: nat, b: nat)
    requires a <= U128_MAX && b <= U128_MAX
    ensures a * b <= U256_MAX
  {
    MulMono(a, U128_MAX, b);
    MulMono(b, U128_MAX, U128_MAX);
  }

  function Pow10(n: nat): (r: nat)
    ensures r >= 1
  {
    if n == 0 then 1 else 10 * Pow10(n - 1)
  }

  lemma {:induction false} Pow10Adds(a: nat, b: nat)
    ensures Pow10(a + b) == Pow10(a) * Pow10(b)
  {
    if a > 0 { Pow10Adds(a - 1, b); }
  }

  lemma {:induction false} Pow10Grows(a: nat, b: nat)
    requires a <= b
    ensures Pow10(a) <= Pow10(b)
    decreases b
  {
    if a < b { Pow10Grows(a, b - 1); }
  }

  lemma SmallPowers()
    ensures Pow10(19) == 10_000_000_000_000_000_000
    ensures Pow10(20) == 100_000_000_000_000_000_000
  {
    assert Pow10(5) == 100_000;
    Pow10Adds(5, 5);
    Pow10Adds(10, 5);
    Pow10Adds(15, 5);
  }

  /** 10^77 is the last power of ten in 256 bits; 10^78 exceeds twice the largest 256-bit integer. */
  lemma PowersIn256Bits()
    ensures Pow10(77) <= U256_MAX && 2 * U256_MAX < Pow10(78)
  {
    SmallPowers();
    Pow10Adds(19, 19);
    Pow10Adds(38, 19);
    Pow10Adds(57, 20);
  }

  lemma PowersFit(n: nat)
    ensures Pow10(n) <= U256_MAX <==> n <= 77
    ensures n >= 78 ==> Pow10(n) > 2 * U256_MAX
  {
    PowersIn256Bits();
    if n >= 78 { Pow10Grows(78, n); } else { Pow10Grows(n, 77); }
  }
}
