/** Order-book numbers as exact decimals, turned into base units by two SDKs: one over 256-bit integers (Rust),
    one over unbounded ones (TypeScript). */
module Prices {
  import opened Arith
  import opened Chain

  // ----- Rounding -----

  /** The integer nearest to `num / den`, halves up. */
  function HalfUp(num: nat, den: nat): nat
    requires 0 < den
  {
    (2 * num + den) / (2 * den)
  }

  lemma HalfUpIsNearest(num: nat, den: nat, r: nat)
    requires 0 < den
    ensures HalfUp(num, den) == r <==> r * (2 * den) <= 2 * num + den < (r + 1) * (2 * den)
  {
    var a, b := 2 * num + den, 2 * den;
    QuotRem(a, b);
    assert (Quot(a, b) + 1) * b == Quot(a, b) * b + b;
    if r * b <= a < (r + 1) * b { DivisionIsUnique(a, b, r); }
  }

  lemma ScaleBound(r: nat, n: nat, d: nat, n': nat, d': nat)
    requires 0 < d && n * d' == n' * d
    ensures (2 * n + d) * d' == (2 * n' + d') * d
    ensures (r * (2 * d)) * d' == (r * (2 * d')) * d
  {
    calc {
      (r * (2 * d)) * d';
      { Assoc(r, 2 * d, d'); }
      r * ((2 * d) * d');
      { assert (2 * d) * d' == (2 * d') * d; }
      r * ((2 * d') * d);
      { Assoc(r, 2 * d', d); }
      (r * (2 * d')) * d;
    }
  }

  /** Rounding sees the ratio only. */
  lemma HalfUpSeesRatio(n: nat, d: nat, n': nat, d': nat)
    requires 0 < d && 0 < d' && n * d' == n' * d
    ensures HalfUp(n, d) == HalfUp(n', d')
  {
    var r := HalfUp(n, d);
    HalfUpIsNearest(n, d, r);
    ScaleBound(r, n, d, n', d');
    ScaleBound(r + 1, n, d, n', d');
    MulMono(r * (2 * d), 2 * n + d, d');
    MulCancel(r * (2 * d'), 2 * n' + d', d);
    MulStrict(2 * n + d, (r + 1) * (2 * d), d');
    CancelStrict(2 * n' + d', (r + 1) * (2 * d'), d);
    HalfUpIsNearest(n', d', r);
  }

  // ----- The two SDKs -----

  /** `digits / 10^scale`. Rust keeps digits in 256 bits and the scale non-negative; TypeScript bounds neither. */
  datatype RustDecimal = RustDecimal(digits: u256, scale: nat)
  datatype TsDecimal = TsDecimal(digits: nat, scale: int)

  /** `pow10`: `None` past 256 bits. */
  function CheckedPow10(n: nat): Option<u256> {
    if Pow10(n) <= U256_MAX then Some(Pow10(n)) else None
  }

  /** `Decimal::times`. */
  function Product(a: RustDecimal, b: RustDecimal): Option<RustDecimal> {
    match CheckedMul(a.digits, b.digits)
    case None => None
    case Some(digits) => Some(RustDecimal(digits, a.scale + b.scale))
  }

  /** `Decimal::base_units`. */
  function RustBaseUnits(d: RustDecimal, decimals: nat): Option<u256> {
    if decimals >= d.scale then
      match CheckedPow10(decimals - d.scale)
      case None => None
      case Some(factor) => CheckedMul(d.digits, factor)
    else
      match CheckedPow10(d.scale - decimals)
      case None => Some(0)
      case Some(divisor) =>
        var quotient, remainder := d.digits / divisor, d.digits % divisor;
        QuotientSmall(d.digits, divisor, d.scale - decimals);
        Some(if remainder >= divisor - remainder then quotient + 1 else quotient)
  }

  lemma QuotientSmall(digits: u256, divisor: nat, n: nat)
    requires 0 < n && divisor == Pow10(n)
    ensures 0 <= digits / divisor < U256_MAX
  {
    Pow10Grows(1, n);
    QuotRem(digits, divisor);
    MulMono(10, divisor, Quot(digits, divisor));
  }

  /** `toBaseUnits`. */
  function TsBaseUnits(d: TsDecimal, decimals: nat): Option<u256> {
    var shift := decimals - d.scale;
    var units := if shift >= 0 then d.digits * Pow10(shift) else (d.digits + Pow10(-shift) / 2) / Pow10(-shift);
    if units <= U256_MAX then Some(units) else None
  }

  // ----- What both are meant to compute -----

  function Numerator(d: TsDecimal): nat { if d.scale < 0 then d.digits * Pow10(-d.scale) else d.digits }

  function Denominator(d: TsDecimal): (r: nat)
    ensures 0 < r
  {
    if d.scale < 0 then 1 else Pow10(d.scale)
  }

  function Exact(d: RustDecimal): TsDecimal { TsDecimal(d.digits, d.scale) }

  /** The same number, however written. */
  ghost predicate SameValue(a: TsDecimal, b: TsDecimal) {
    Numerator(a) * Denominator(b) == Numerator(b) * Denominator(a)
  }

  /** `value * 10^decimals` to the nearest integer, if it fits 256 bits. */
  function BaseUnits(d: TsDecimal, decimals: nat): Option<u256> {
    var r := HalfUp(Numerator(d) * Pow10(decimals), Denominator(d));
    if r <= U256_MAX then Some(r) else None
  }

  lemma CrossTimes(na: nat, db: nat, nb: nat, da: nat, p: nat)
    requires na * db == nb * da
    ensures (na * p) * db == (nb * p) * da
  {
    Assoc(p, na, db);
    Assoc(p, nb, da);
  }

  lemma HalfUpOfMultiple(num: nat, k: nat, den: nat)
    requires 0 < den && num == k * den
    ensures HalfUp(num, den) == k
  {
    assert k * (2 * den) == 2 * num && (k + 1) * (2 * den) == 2 * num + 2 * den;
    HalfUpIsNearest(num, den, k);
  }

  /** The intended result depends on the value alone. */
  lemma BaseUnitsSeeValue(a: TsDecimal, b: TsDecimal, decimals: nat)
    requires SameValue(a, b)
    ensures BaseUnits(a, decimals) == BaseUnits(b, decimals)
  {
    var p := Pow10(decimals);
    CrossTimes(Numerator(a), Denominator(b), Numerator(b), Denominator(a), p);
    HalfUpSeesRatio(Numerator(a) * p, Denominator(a), Numerator(b) * p, Denominator(b));
  }

  /** Scaling up leaves nothing to round: the numerator is a multiple of the denominator. */
  lemma ScalingUpIsMultiple(d: TsDecimal, decimals: nat)
    requires decimals >= d.scale
    ensures Numerator(d) * Pow10(decimals) == (d.digits * Pow10(decimals - d.scale)) * Denominator(d)
  {
    if d.scale < 0 {
      Pow10Adds(-d.scale, decimals);
      Assoc(d.digits, Pow10(-d.scale), Pow10(decimals));
    } else {
      Pow10Adds(decimals - d.scale, d.scale);
      Assoc(d.digits, Pow10(decimals - d.scale), Pow10(d.scale));
    }
  }

  lemma ScalingUp(d: TsDecimal, decimals: nat)
    requires decimals >= d.scale
    ensures HalfUp(Numerator(d) * Pow10(decimals), Denominator(d)) == d.digits * Pow10(decimals - d.scale)
  {
    ScalingUpIsMultiple(d, decimals);
    HalfUpOfMultiple(Numerator(d) * Pow10(decimals), d.digits * Pow10(decimals - d.scale), Denominator(d));
  }

  /** Scaling down: a power of ten is divided out. */
  lemma ScalingDown(d: TsDecimal, decimals: nat)
    requires decimals < d.scale
    ensures HalfUp(Numerator(d) * Pow10(decimals), Denominator(d)) == HalfUp(d.digits, Pow10(d.scale - decimals))
  {
    Pow10Adds(d.scale - decimals, decimals);
    assert (d.digits * Pow10(decimals)) * Pow10(d.scale - decimals) == d.digits * Pow10(d.scale);
    HalfUpSeesRatio(d.digits * Pow10(decimals), Pow10(d.scale), d.digits, Pow10(d.scale - decimals));
  }

  /** TypeScript: the intended result, always. */
  lemma TsRoundsHalfUp(d: TsDecimal, decimals: nat)
    ensures TsBaseUnits(d, decimals) == BaseUnits(d, decimals)
  {
    if decimals >= d.scale {
      ScalingUp(d, decimals);
    } else {
      ScalingDown(d, decimals);
      AddHalfThenDivide(d.digits, d.scale - decimals);
    }
  }

  lemma AddHalfThenDivide(digits: nat, n: nat)
    requires 0 < n
    ensures (digits + Pow10(n) / 2) / Pow10(n) == HalfUp(digits, Pow10(n))
  {
    var p, half := Pow10(n), 5 * Pow10(n - 1);
    assert p == 2 * half && p / 2 == half;
    var a := digits + half;
    var q := Quot(a, p);
    QuotRem(a, p);
    assert q * (2 * p) == 2 * (q * p) && (q + 1) * (2 * p) == 2 * (q * p) + 2 * p;
    HalfUpIsNearest(digits, p, q);
  }

  /** The one input class Rust gets wrong: zero, written with 78 or more powers of ten to gain. */
  predicate ZeroGap(d: RustDecimal, decimals: nat) {
    d.digits == 0 && decimals >= d.scale + 78
  }

  /** Rust: the intended result exactly outside that class, where it is `None` instead of zero. */
  lemma RustRoundsHalfUp(d: RustDecimal, decimals: nat)
    ensures RustBaseUnits(d, decimals) == BaseUnits(Exact(d), decimals) <==> !ZeroGap(d, decimals)
    ensures ZeroGap(d, decimals) ==> RustBaseUnits(d, decimals) == None
    ensures d.digits == 0 ==> BaseUnits(Exact(d), decimals) == Some(0)
  {
    if decimals >= d.scale {
      ScalingUp(Exact(d), decimals);
      RustScalesUp(d, decimals);
    } else {
      ScalingDown(Exact(d), decimals);
      if Pow10(d.scale - decimals) > U256_MAX {
        PastTheLastPower(d.digits, d.scale - decimals);
      } else {
        QuotientSmall(d.digits, Pow10(d.scale - decimals), d.scale - decimals);
        HalfwayTest(d.digits, Pow10(d.scale - decimals));
      }
      HalfUpOfMultiple(0, 0, Pow10(d.scale - decimals));
    }
  }

  lemma RustScalesUp(d: RustDecimal, decimals: nat)
    requires decimals >= d.scale
    ensures var units := d.digits * Pow10(decimals - d.scale);
      RustBaseUnits(d, decimals) == (if units <= U256_MAX && !ZeroGap(d, decimals) then Some(units) else None)
    ensures d.digits == 0 ==> d.digits * Pow10(decimals - d.scale) == 0
  {
    PowersFit(decimals - d.scale);
    if decimals - d.scale >= 78 && d.digits > 0 { MulMono(1, d.digits, Pow10(decimals - d.scale)); }
  }

  /** A divisor past 256 bits rounds everything to zero. */
  lemma PastTheLastPower(digits: u256, n: nat)
    requires Pow10(n) > U256_MAX
    ensures HalfUp(digits, Pow10(n)) == 0
  {
    PowersFit(n);
    HalfUpIsNearest(digits, Pow10(n), 0);
  }

  /** `remainder >= divisor - remainder` is the halfway test. */
  lemma HalfwayTest(digits: nat, p: nat)
    requires 0 < p
    ensures HalfUp(digits, p) == digits / p + (if digits % p >= p - digits % p then 1 else 0)
  {
    var q, r := digits / p, digits % p;
    assert digits == q * p + r;
    var up := q + (if r >= p - r then 1 else 0);
    assert q * (2 * p) == 2 * (q * p);
    assert (q + 1) * (2 * p) == 2 * (q * p) + 2 * p && (q + 2) * (2 * p) == 2 * (q * p) + 4 * p;
    HalfUpIsNearest(digits, p, up);
  }

  /** The failing class shown: zero at scale 0 loses its base units at 78 decimals, zero at scale 1 keeps them. */
  lemma ZeroLosesItsUnits()
    ensures RustBaseUnits(RustDecimal(0, 0), 78) == None && RustBaseUnits(RustDecimal(0, 1), 78) == Some(0)
    ensures SameValue(Exact(RustDecimal(0, 0)), Exact(RustDecimal(0, 1)))
  {
    RustRoundsHalfUp(RustDecimal(0, 0), 78);
    RustRoundsHalfUp(RustDecimal(0, 1), 78);
  }

  // ----- Rungs and ladders -----

  datatype Level = Level(amountIn: u256, amountOut: u256)

  /** One rung of `levels`: dropped without input, or when an amount does not fit. */
  function RustLevel(amountIn: RustDecimal, amountOut: RustDecimal, decIn: nat, decOut: nat): Option<Level> {
    match RustBaseUnits(amountIn, decIn)
    case None => None
    case Some(i) =>
      if i == 0 then None
      else match RustBaseUnits(amountOut, decOut)
           case None => None
           case Some(o) => Some(Level(i, o))
  }

  function TsLevel(amountIn: TsDecimal, amountOut: TsDecimal, decIn: nat, decOut: nat): Option<Level> {
    var i, o := TsBaseUnits(amountIn, decIn), TsBaseUnits(amountOut, decOut);
    if i.Some? && i.value != 0 && o.Some? then Some(Level(i.value, o.value)) else None
  }

  datatype RustRung = RustRung(volume: RustDecimal, price: RustDecimal)
  datatype TsRung = TsRung(volume: TsDecimal, price: TsDecimal)

  ghost predicate SameRung(r: RustRung, t: TsRung) {
    SameValue(Exact(r.volume), t.volume) && SameValue(Exact(r.price), t.price)
  }

  /** A bid sells the volume for volume times price; an ask pays that and gets the volume. */
  function RustConvert(ask: bool, r: RustRung, d1: nat, d2: nat): Option<Level> {
    match Product(r.volume, r.price)
    case None => None
    case Some(quote) => if ask then RustLevel(quote, r.volume, d2, d1) else RustLevel(r.volume, quote, d1, d2)
  }

  function TsProduct(t: TsRung): TsDecimal {
    TsDecimal(t.volume.digits * t.price.digits, t.volume.scale + t.price.scale)
  }

  function TsConvert(ask: bool, t: TsRung, d1: nat, d2: nat): Option<Level> {
    if ask then TsLevel(TsProduct(t), t.volume, d2, d1) else TsLevel(t.volume, TsProduct(t), d1, d2)
  }

  /** A decimal's value over any common power of ten: `digits * 10^e`, for `e` making the exponent non-negative. */
  lemma ValueAt(d: TsDecimal, e: nat)
    requires e >= d.scale
    ensures d.digits * Pow10(e - d.scale) * Denominator(d) == Numerator(d) * Pow10(e)
  {
    if d.scale < 0 {
      Pow10Adds(-d.scale, e);
      Assoc(d.digits, Pow10(-d.scale), Pow10(e));
    } else {
      Pow10Adds(e - d.scale, d.scale);
      Assoc(d.digits, Pow10(e - d.scale), Pow10(d.scale));
    }
  }

  function Big(a: int, b: int): (e: nat)
    ensures e >= a && e >= b
  {
    (if a > 0 then a else 0) + (if b > 0 then b else 0)
  }

  /** Equal values have equal digits once written over a common power of ten. */
  lemma SameValueDigits(a: TsDecimal, b: TsDecimal, e: nat)
    requires e >= a.scale && e >= b.scale
    ensures SameValue(a, b) <==> a.digits * Pow10(e - a.scale) == b.digits * Pow10(e - b.scale)
  {
    var x, y, p := a.digits * Pow10(e - a.scale), b.digits * Pow10(e - b.scale), Pow10(e);
    var da, db := Denominator(a), Denominator(b);
    ValueAt(a, e);
    ValueAt(b, e);
    CrossScaled(Numerator(a), da, x, db, p);
    CrossScaled(Numerator(b), db, y, da, p);
    PositiveProduct(da, db);
    if SameValue(a, b) {
      CancelEqual(x, y, da * db);
    }
    if x == y {
      CancelEqual(Numerator(a) * db, Numerator(b) * da, p);
    }
  }

  lemma CrossScaled(n: nat, d: nat, x: nat, other: nat, p: nat)
    requires x * d == n * p
    ensures (n * other) * p == x * (d * other) && d * other == other * d
  {
    calc {
      (n * other) * p;
      (n * p) * other;
      (x * d) * other;
      x * (d * other);
    }
  }

  lemma PositiveProduct(a: nat, b: nat)
    requires 0 < a && 0 < b
    ensures 0 < a * b
  {}

  lemma CancelEqual(a: int, b: int, c: int)
    requires 0 < c && a * c == b * c
    ensures a == b
  {
    MulCancel(a, b, c);
    MulCancel(b, a, c);
  }

  /** Products of equal values are equal. */
  lemma ProductsAgree(a: TsDecimal, b: TsDecimal, c: TsDecimal, d: TsDecimal)
    requires SameValue(a, b) && SameValue(c, d)
    ensures SameValue(TsProduct(TsRung(a, c)), TsProduct(TsRung(b, d)))
  {
    var e, f := Big(a.scale, b.scale), Big(c.scale, d.scale);
    SameValueDigits(a, b, e);
    SameValueDigits(c, d, f);
    SameValueDigits(TsProduct(TsRung(a, c)), TsProduct(TsRung(b, d)), e + f);
    Pow10Adds(e - a.scale, f - c.scale);
    Pow10Adds(e - b.scale, f - d.scale);
    ProductOfScaled(a.digits, Pow10(e - a.scale), c.digits, Pow10(f - c.scale));
    ProductOfScaled(b.digits, Pow10(e - b.scale), d.digits, Pow10(f - d.scale));
  }

  lemma ProductOfScaled(a: nat, p: nat, c: nat, q: nat)
    ensures (a * p) * (c * q) == (a * c) * (p * q)
  {}

  /** Rust gives up on a rung TypeScript keeps in two cases only: the product's digits leave 256 bits, or a bid's
      output is zero with too many decimals to gain. */
  predicate RustGivesUp(ask: bool, r: RustRung, d2: nat) {
    || r.volume.digits * r.price.digits > U256_MAX
    || (!ask && r.volume.digits * r.price.digits == 0 && d2 >= r.volume.scale + r.price.scale + 78)
  }

  /** On rungs of equal value the SDKs agree exactly outside those cases; there Rust drops the rung. So whenever
      Rust keeps a rung, TypeScript keeps it with the same amounts. */
  lemma RungsAgree(ask: bool, r: RustRung, t: TsRung, d1: nat, d2: nat)
    requires SameRung(r, t)
    ensures RustConvert(ask, r, d1, d2) ==
      if RustGivesUp(ask, r, d2) then None else TsConvert(ask, t, d1, d2)
  {
    var ev, ep := Exact(r.volume), Exact(r.price);
    ProductsAgree(ev, t.volume, ep, t.price);
    var product := TsProduct(TsRung(ev, ep));
    BaseUnitsSeeValue(ev, t.volume, d1);
    BaseUnitsSeeValue(product, TsProduct(t), d2);
    TsRoundsHalfUp(t.volume, d1);
    TsRoundsHalfUp(TsProduct(t), d2);
    RustRoundsHalfUp(r.volume, d1);
    var quote := Product(r.volume, r.price);
    if quote.Some? {
      assert Exact(quote.value) == product;
      RustRoundsHalfUp(quote.value, d2);
      if r.volume.digits == 0 { assert quote.value.digits == 0; }
    }
  }

  lemma SignedPowers(a: int, b: int)
    ensures Shift(0 - (a + b)) * (Shift(a) * Shift(b)) == (Shift(0 - a) * Shift(0 - b)) * Shift(a + b)
  {
    var n := Up(0 - (a + b)) + (Up(a) + Up(b));
    assert n == (Up(0 - a) + Up(0 - b)) + Up(a + b);
    Pow10Adds(Up(a), Up(b));
    Pow10Adds(Up(0 - (a + b)), Up(a) + Up(b));
    Pow10Adds(Up(0 - a), Up(0 - b));
    Pow10Adds(Up(0 - a) + Up(0 - b), Up(a + b));
  }

  function Up(x: int): nat { if x > 0 then x else 0 }

  function Shift(x: int): nat { Pow10(Up(x)) }

  /** The product of a rung's decimals has the product of their values. */
  lemma ProductMeans(t: TsRung)
    ensures var v, p, q := t.volume, t.price, TsProduct(t);
      Numerator(q) * (Denominator(v) * Denominator(p)) == (Numerator(v) * Numerator(p)) * Denominator(q)
  {
    var v, p, q := t.volume, t.price, TsProduct(t);
    var d := v.digits * p.digits;
    SignedPowers(v.scale, p.scale);
    assert Numerator(q) == d * Shift(0 - q.scale) && Denominator(q) == Shift(q.scale);
    assert Numerator(v) == v.digits * Shift(0 - v.scale) && Denominator(v) == Shift(v.scale);
    assert Numerator(p) == p.digits * Shift(0 - p.scale) && Denominator(p) == Shift(p.scale);
    ProductOfScaled(v.digits, Shift(0 - v.scale), p.digits, Shift(0 - p.scale));
    Assoc(d, Shift(0 - q.scale), Shift(v.scale) * Shift(p.scale));
    Assoc(d, Shift(0 - v.scale) * Shift(0 - p.scale), Shift(q.scale));
  }

  /** A bid takes the volume, in units of the first token, and gives volume times price, in units of the second; an ask
      takes the latter and gives the former. The rung is kept if both fit and it takes something. */
  lemma RungMeans(t: TsRung, d1: nat, d2: nat)
    ensures var base, quote := BaseUnits(t.volume, d1), BaseUnits(TsProduct(t), d2);
      && TsConvert(false, t, d1, d2) ==
           (if base.Some? && quote.Some? && base.value > 0 then Some(Level(base.value, quote.value)) else None)
      && TsConvert(true, t, d1, d2) ==
           (if base.Some? && quote.Some? && quote.value > 0 then Some(Level(quote.value, base.value)) else None)
  {
    TsRoundsHalfUp(t.volume, d1);
    TsRoundsHalfUp(TsProduct(t), d2);
  }

  /** A ladder is the conversions of its rungs, one after the other. */
  lemma {:induction false} LadderJoins(ask: bool, a: seq<TsRung>, b: seq<TsRung>, d1: nat, d2: nat)
    ensures TsLadder(ask, a + b, d1, d2) == TsLadder(ask, a, d1, d2) + TsLadder(ask, b, d1, d2)
    ensures |b| == 1 ==> (match TsConvert(ask, b[0], d1, d2)
                          case None => TsLadder(ask, b, d1, d2) == []
                          case Some(l) => TsLadder(ask, b, d1, d2) == [l])
  {
    if |b| == 0 {
      assert a + b == a;
    } else {
      LadderJoins(ask, a, b[..|b| - 1], d1, d2);
      assert (a + b)[..|a + b| - 1] == a + b[..|b| - 1];
    }
  }

  function RustLadder(ask: bool, rs: seq<RustRung>, d1: nat, d2: nat): seq<Level> {
    if |rs| == 0 then []
    else
      var front := RustLadder(ask, rs[..|rs| - 1], d1, d2);
      match RustConvert(ask, rs[|rs| - 1], d1, d2)
      case None => front
      case Some(l) => front + [l]
  }

  /** The Rust ladder is the TypeScript ladder of the rungs Rust does not give up on. */
  lemma {:induction false} LaddersAgree(ask: bool, rs: seq<RustRung>, ts: seq<TsRung>, d1: nat, d2: nat)
    requires |rs| == |ts| && forall i :: 0 <= i < |rs| ==> SameRung(rs[i], ts[i])
    ensures RustLadder(ask, rs, d1, d2) == TsLadder(ask, Surviving(ask, rs, ts, d2), d1, d2)
    ensures forall k :: 0 <= k < |RustLadder(ask, rs, d1, d2)| ==> RustLadder(ask, rs, d1, d2)[k].amountIn > 0
  {
    if |rs| > 0 {
      var n := |rs| - 1;
      LaddersAgree(ask, rs[..n], ts[..n], d1, d2);
      RungsAgree(ask, rs[n], ts[n], d1, d2);
      var kept := Surviving(ask, rs[..n], ts[..n], d2);
      assert (kept + [ts[n]])[..|kept|] == kept;
    }
  }

  function Surviving(ask: bool, rs: seq<RustRung>, ts: seq<TsRung>, d2: nat): seq<TsRung>
    requires |rs| == |ts|
  {
    if |rs| == 0 then []
    else
      var n := |rs| - 1;
      var front := Surviving(ask, rs[..n], ts[..n], d2);
      if RustGivesUp(ask, rs[n], d2) then front else front + [ts[n]]
  }

  function TsLadder(ask: bool, ts: seq<TsRung>, d1: nat, d2: nat): seq<Level> {
    if |ts| == 0 then []
    else
      var front := TsLadder(ask, ts[..|ts| - 1], d1, d2);
      match TsConvert(ask, ts[|ts| - 1], d1, d2)
      case None => front
      case Some(l) => front + [l]
  }

  /** `toLevels`: pushes the rungs that convert. */
  method ToLevels(ask: bool, ts: seq<TsRung>, d1: nat, d2: nat) returns (levels: seq<Level>)
    ensures levels == TsLadder(ask, ts, d1, d2)
  {
    levels := [];
    var i := 0;
    while i < |ts|
      invariant 0 <= i <= |ts| && levels == TsLadder(ask, ts[..i], d1, d2)
    {
      assert ts[..i + 1][..i] == ts[..i];
      var product := TsDecimal(ts[i].volume.digits * ts[i].price.digits, ts[i].volume.scale + ts[i].price.scale);
      var baseIn := if ask then TsBaseUnits(product, d2) else TsBaseUnits(ts[i].volume, d1);
      var baseOut := if ask then TsBaseUnits(ts[i].volume, d1) else TsBaseUnits(product, d2);
      if baseIn.Some? && baseIn.value != 0 && baseOut.Some? {
        levels := levels + [Level(baseIn.value, baseOut.value)];
      }
      i := i + 1;
    }
    assert ts[..i] == ts;
  }
}
