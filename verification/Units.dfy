/** Decimal text to base units and back: the Python SDK over unbounded integers, the Rust SDK over 256 bits. */
module Units {
  import opened Arith
  import opened Chain

  datatype Parsed = Value(value: nat) | Invalid | TooPrecise | Overflow | Aborted

  // ----- Digits -----

  predicate IsDigit(c: char) { '0' <= c <= '9' }

  predicate AllDigits(s: string) { forall i :: 0 <= i < |s| ==> IsDigit(s[i]) }

  function DigitOf(c: char): (d: nat)
    requires IsDigit(c)
    ensures d < 10
  {
    (c - '0') as nat
  }

  function CharOf(d: nat): (c: char)
    requires d < 10
    ensures IsDigit(c) && DigitOf(c) == d
  {
    '0' + d as char
  }

  /** The number a digit string denotes. */
  function DecValue(s: string): nat
    requires AllDigits(s)
  {
    if |s| == 0 then 0 else 10 * DecValue(s[..|s| - 1]) + DigitOf(s[|s| - 1])
  }

  /** The decimal digits of a number, without leading zeros. */
  function Digits(n: nat): (s: string)
    ensures AllDigits(s) && |s| > 0
  {
    if n < 10 then [CharOf(n)] else Digits(n / 10) + [CharOf(n % 10)]
  }

  function Zeros(n: nat): (s: string)
    ensures |s| == n && AllDigits(s)
  {
    if n == 0 then "" else Zeros(n - 1) + "0"
  }

  function PadLeft(s: string, width: nat): string {
    if |s| >= width then s else Zeros(width - |s|) + s
  }

  function TrimZeros(s: string): string {
    if |s| > 0 && s[|s| - 1] == '0' then TrimZeros(s[..|s| - 1]) else s
  }

  // ----- Text in two parts -----

  /** Everything before the first point, and everything after it. */
  function Split(s: string): (string, string) {
    if |s| == 0 then ("", "")
    else if s[0] == '.' then ("", s[1..])
    else var (i, f) := Split(s[1..]); ([s[0]] + i, f)
  }

  /** `parse_units` over unbounded integers. */
  function PyParse(amount: string, decimals: nat): Parsed {
    var (i, f) := Split(amount);
    if |f| > decimals then TooPrecise
    else if !AllDigits(i) then Invalid
    else if !AllDigits(f) then Invalid
    else Value(Times(DecValue(i), Pow10(decimals)) + Times(DecValue(f), Pow10(decimals - |f|)))
  }

  /** `U256::from_dec_str`. */
  function FromDec(s: string): Option<u256> {
    if AllDigits(s) && DecValue(s) <= U256_MAX then Some(DecValue(s)) else None
  }

  /** `U256::exp10`, which panics past 10^77. */
  function Exp10(n: nat): Option<u256> {
    if Pow10(n) <= U256_MAX then Some(Pow10(n)) else None
  }

  /** `parse_units` over 256 bits. The unchecked product of the fraction panics if it overflows. */
  function RustParse(amount: string, decimals: nat): Parsed {
    var (i, f) := Split(amount);
    if |f| > decimals then TooPrecise
    else
      var whole := FromDec(i);
      var scale := Exp10(decimals);
      if whole.None? then Invalid
      else if scale.None? then Aborted
      else
        match CheckedMul(whole.value, scale.value)
        case None => Overflow
        case Some(value) =>
          if |f| == 0 then Value(value)
          else
            var frac, unit := FromDec(f), Exp10(decimals - |f|);
            if frac.None? then Invalid
            else if unit.None? then Aborted
            else
              match CheckedMul(frac.value, unit.value)
              case None => Aborted
              case Some(part) => if value + part > U256_MAX then Overflow else Value(value + part)
  }

  /** `format_units`, the same in both SDKs where the scale exists. */
  function Format(value: nat, decimals: nat): string {
    var scale := Pow10(decimals);
    var frac := Rem(value, scale);
    if frac == 0 then Digits(Quot(value, scale))
    else Digits(Quot(value, scale)) + "." + TrimZeros(PadLeft(Digits(frac), decimals))
  }

  // ----- Facts about digit strings -----

  lemma {:induction false} DecValueBound(s: string)
    requires AllDigits(s)
    ensures DecValue(s) < Pow10(|s|)
  {
    if |s| > 0 { DecValueBound(s[..|s| - 1]); }
  }

  lemma {:induction false} DigitsValue(n: nat)
    ensures DecValue(Digits(n)) == n
    ensures Digits(n)[0] == '0' ==> n == 0
  {
    if n >= 10 {
      DigitsValue(n / 10);
      assert Digits(n)[..|Digits(n)| - 1] == Digits(n / 10);
    } else {
      assert Digits(n)[..0] == "";
    }
  }

  lemma {:induction false} DigitsLength(n: nat, k: nat)
    requires 0 < k && n < Pow10(k)
    ensures |Digits(n)| <= k
  {
    if n >= 10 { DigitsLength(n / 10, k - 1); }
  }

  lemma {:induction false} DecValueAppend(a: string, b: string)
    requires AllDigits(a) && AllDigits(b)
    ensures AllDigits(a + b) && DecValue(a + b) == Times(DecValue(a), Pow10(|b|)) + DecValue(b)
  {
    if |b| == 0 {
      assert a + b == a;
    } else {
      var c := b[..|b| - 1];
      DecValueAppend(a, c);
      assert (a + b)[..|a + b| - 1] == a + c;
      Assoc(DecValue(a), Pow10(|c|), 10);
    }
  }

  lemma {:induction false} ZerosValue(n: nat)
    ensures DecValue(Zeros(n)) == 0
  {
    if n > 0 {
      ZerosValue(n - 1);
      assert Zeros(n)[..n - 1] == Zeros(n - 1);
    }
  }

  /** A digit string is determined by its length and its value. */
  lemma {:induction false} FixedWidthUnique(a: string, b: string)
    requires AllDigits(a) && AllDigits(b) && |a| == |b| && DecValue(a) == DecValue(b)
    ensures a == b
  {
    if |a| > 0 {
      var n := |a| - 1;
      FixedWidthUnique(a[..n], b[..n]);
      assert a == a[..n] + [a[n]] && b == b[..n] + [b[n]];
    }
  }

  /** Trimming drops exactly the trailing zeros. */
  lemma {:induction false} TrimZerosSplits(s: string)
    ensures |TrimZeros(s)| <= |s| && s == TrimZeros(s) + Zeros(|s| - |TrimZeros(s)|)
    ensures |TrimZeros(s)| > 0 ==> TrimZeros(s)[|TrimZeros(s)| - 1] != '0'
  {
    if |s| > 0 && s[|s| - 1] == '0' {
      var front := s[..|s| - 1];
      TrimZerosSplits(front);
      var t := TrimZeros(front);
      assert TrimZeros(s) == t;
      var n := |front| - |t|;
      assert Zeros(n + 1) == Zeros(n) + "0";
      assert s == front + "0" == (t + Zeros(n)) + "0" == t + (Zeros(n) + "0");
    } else {
      assert TrimZeros(s) == s && Zeros(0) == "" && s + "" == s;
    }
  }

  lemma {:induction false} TrimZerosOfPadded(f: string, n: nat)
    requires |f| > 0 ==> f[|f| - 1] != '0'
    ensures TrimZeros(f + Zeros(n)) == f
  {
    if n == 0 {
      assert f + Zeros(0) == f;
    } else {
      assert (f + Zeros(n))[..|f| + n - 1] == f + Zeros(n - 1);
      TrimZerosOfPadded(f, n - 1);
    }
  }

  lemma {:induction false} SplitAtPoint(i: string, f: string)
    requires AllDigits(i)
    ensures Split(i + "." + f) == (i, f) && Split(i) == (i, "")
  {
    if |i| > 0 {
      SplitAtPoint(i[1..], f);
      assert (i + "." + f)[1..] == i[1..] + "." + f;
      assert i == [i[0]] + i[1..];
    } else {
      assert (i + "." + f)[1..] == f;
    }
  }

  // ----- Canonical text -----

  /** No superfluous zeros, a digit before the point, a point only before a fraction. */
  predicate Canonical(s: string, decimals: nat) {
    var (i, f) := Split(s);
    && AllDigits(i) && AllDigits(f) && |f| <= decimals
    && |i| > 0 && (i[0] == '0' ==> |i| == 1)
    && (if |f| == 0 then s == i else f[|f| - 1] != '0')
  }

  lemma LeadingZeros(k: nat, d: string)
    requires AllDigits(d)
    ensures AllDigits(Zeros(k) + d) && DecValue(Zeros(k) + d) == DecValue(d)
  {
    ZerosValue(k);
    DecValueAppend(Zeros(k), d);
  }

  lemma TrailingZeros(f: string, k: nat)
    requires AllDigits(f)
    ensures AllDigits(f + Zeros(k)) && DecValue(f + Zeros(k)) == Times(DecValue(f), Pow10(k))
  {
    ZerosValue(k);
    DecValueAppend(f, Zeros(k));
  }

  /** Padding to a width that fits does not change the number. */
  lemma PaddedKeeps(d: string, width: nat)
    requires AllDigits(d) && |d| <= width
    ensures var p := PadLeft(d, width);
      |p| == width && AllDigits(p) && DecValue(p) == DecValue(d)
  {
    if |d| < width { LeadingZeros(width - |d|, d); }
  }

  lemma PaddedDigits(n: nat, width: nat)
    requires n < Pow10(width) && 0 < width
    ensures var p := PadLeft(Digits(n), width);
      |p| == width && AllDigits(p) && DecValue(p) == n
  {
    DigitsValue(n);
    DigitsLength(n, width);
    PaddedKeeps(Digits(n), width);
  }

  /** Cutting trailing zeros divides by the powers of ten cut. */
  lemma TrimmedText(s: string)
    requires AllDigits(s) && DecValue(s) > 0
    ensures var f := TrimZeros(s);
      && 0 < |f| <= |s| && AllDigits(f) && f[|f| - 1] != '0'
      && Times(DecValue(f), Pow10(|s| - |f|)) == DecValue(s)
  {
    TrimZerosSplits(s);
    var f := TrimZeros(s);
    assert forall k :: 0 <= k < |f| ==> f[k] == s[k];
    TrailingZeros(f, |s| - |f|);
  }

  /** The digits of the fraction, padded to the number of decimals and with its trailing zeros cut, still say what
      they said. */
  lemma FractionText(frac: nat, decimals: nat)
    requires 0 < frac < Pow10(decimals)
    ensures var f := TrimZeros(PadLeft(Digits(frac), decimals));
      && 0 < |f| <= decimals && AllDigits(f) && f[|f| - 1] != '0'
      && Times(DecValue(f), Pow10(decimals - |f|)) == frac
  {
    PaddedDigits(frac, decimals);
    TrimmedText(PadLeft(Digits(frac), decimals));
  }

  /** The parse of text in two digit parts. */
  lemma ParseTwoParts(i: string, f: string, decimals: nat)
    requires AllDigits(i) && AllDigits(f) && |f| <= decimals
    ensures var v := Times(DecValue(i), Pow10(decimals)) + Times(DecValue(f), Pow10(decimals - |f|));
      PyParse(i + "." + f, decimals) == Value(v) && (|f| == 0 ==> PyParse(i, decimals) == Value(v))
  {
    SplitAtPoint(i, f);
  }

  lemma CanonicalTwoParts(i: string, f: string, decimals: nat)
    requires AllDigits(i) && AllDigits(f) && |f| <= decimals && |i| > 0 && (i[0] == '0' ==> |i| == 1)
    ensures |f| > 0 && f[|f| - 1] != '0' ==> Canonical(i + "." + f, decimals)
    ensures |f| == 0 ==> Canonical(i, decimals)
  {
    SplitAtPoint(i, f);
  }

  lemma TwoPartsHold(i: string, f: string, decimals: nat, value: nat)
    requires AllDigits(i) && AllDigits(f) && |f| <= decimals && |i| > 0 && (i[0] == '0' ==> |i| == 1)
    requires |f| > 0 ==> f[|f| - 1] != '0'
    requires value == Times(DecValue(i), Pow10(decimals)) + Times(DecValue(f), Pow10(decimals - |f|))
    ensures var s := if |f| == 0 then i else i + "." + f;
      Canonical(s, decimals) && PyParse(s, decimals) == Value(value)
  {
    ParseTwoParts(i, f, decimals);
    CanonicalTwoParts(i, f, decimals);
  }

  /** Formatting always yields canonical text, and parsing it gives the value back. */
  lemma FormatThenParse(value: nat, decimals: nat)
    ensures Canonical(Format(value, decimals), decimals)
    ensures PyParse(Format(value, decimals), decimals) == Value(value)
  {
    var scale := Pow10(decimals);
    var whole, frac := Quot(value, scale), Rem(value, scale);
    QuotRem(value, scale);
    DigitsValue(whole);
    DigitsLeadingZero(whole);
    if frac == 0 {
      assert Times(DecValue(""), Pow10(decimals)) == 0;
      TwoPartsHold(Digits(whole), "", decimals, value);
    } else {
      FractionText(frac, decimals);
      TwoPartsHold(Digits(whole), TrimZeros(PadLeft(Digits(frac), decimals)), decimals, value);
    }
  }

  lemma DigitsLeadingZero(n: nat)
    ensures Digits(n)[0] == '0' ==> |Digits(n)| == 1
  {
    DigitsValue(n);
  }

  lemma DigitsStep(n: nat, d: nat)
    requires 0 < n && d < 10
    ensures Digits(10 * n + d) == Digits(n) + [CharOf(d)]
  {
    assert (10 * n + d) / 10 == n && (10 * n + d) % 10 == d;
  }

  lemma CharOfDigitOf(c: char)
    requires IsDigit(c)
    ensures CharOf(DigitOf(c)) == c && (DigitOf(c) == 0 <==> c == '0')
  {}

  lemma {:induction false} CanonicalDigits(i: string)
    requires AllDigits(i) && |i| > 0 && (i[0] == '0' ==> |i| == 1)
    ensures Digits(DecValue(i)) == i
    ensures i[0] != '0' ==> DecValue(i) > 0
  {
    var n := |i| - 1;
    var front := i[..n];
    assert i == front + [i[n]];
    CharOfDigitOf(i[n]);
    if n == 0 {
      assert DecValue(front) == 0;
    } else {
      CanonicalDigits(front);
      DigitsStep(DecValue(front), DigitOf(i[n]));
    }
  }

  /** Formatting the parse of canonical text reproduces the text: on canonical text the two are inverse. */
  lemma ParseThenFormat(s: string, decimals: nat)
    requires Canonical(s, decimals)
    ensures PyParse(s, decimals).Value? && Format(PyParse(s, decimals).value, decimals) == s
  {
    var (i, f) := Split(s);
    var frac := Times(DecValue(f), Pow10(decimals - |f|));
    FractionBelowScale(f, decimals);
    QuotRemUnique(PyParse(s, decimals).value, Pow10(decimals), DecValue(i), frac);
    CanonicalDigits(i);
    SplitJoins(s);
    if |f| > 0 { PaddedFraction(f, decimals); }
  }

  lemma FractionBelowScale(f: string, decimals: nat)
    requires AllDigits(f) && |f| <= decimals
    ensures Times(DecValue(f), Pow10(decimals - |f|)) < Pow10(decimals)
    ensures |f| == 0 ==> Times(DecValue(f), Pow10(decimals - |f|)) == 0
  {
    DecValueBound(f);
    Pow10Adds(|f|, decimals - |f|);
    MulStrict(DecValue(f), Pow10(|f|), Pow10(decimals - |f|));
  }

  lemma PaddedFraction(f: string, decimals: nat)
    requires AllDigits(f) && 0 < |f| <= decimals && f[|f| - 1] != '0'
    ensures var frac := Times(DecValue(f), Pow10(decimals - |f|));
      frac > 0 && TrimZeros(PadLeft(Digits(frac), decimals)) == f
  {
    var n := decimals - |f|;
    var frac, long := Times(DecValue(f), Pow10(n)), f + Zeros(n);
    TrailingZeros(f, n);
    FractionBelowScale(f, decimals);
    PaddedDigits(frac, decimals);
    FixedWidthUnique(PadLeft(Digits(frac), decimals), long);
    TrimZerosOfPadded(f, n);
    EndsNonZero(f, n);
  }

  lemma EndsNonZero(f: string, n: nat)
    requires AllDigits(f) && |f| > 0 && f[|f| - 1] != '0'
    ensures Times(DecValue(f), Pow10(n)) > 0
  {
    assert DecValue(f) >= 1;
    MulMono(1, DecValue(f), Pow10(n));
  }

  lemma {:induction false} SplitJoins(s: string)
    ensures var (i, f) := Split(s); s == i || s == i + "." + f
    ensures Split(s).1 != "" ==> s == Split(s).0 + "." + Split(s).1
  {
    if |s| > 0 && s[0] != '.' {
      SplitJoins(s[1..]);
      assert s == [s[0]] + s[1..];
    } else if |s| > 0 {
      assert s == "" + "." + s[1..];
    }
  }

  /** Digits, or digits, a point and at most `decimals` more; either side of the point may be empty. */
  ghost predicate Joins(s: string, i: string, f: string, decimals: nat) {
    AllDigits(i) && AllDigits(f) && |f| <= decimals && (s == i + "." + f || (s == i && f == ""))
  }

  /** Exactly such text is accepted, and read as the number it denotes, scaled by ten to the `decimals`. */
  lemma ParseAcceptsExactly(s: string, decimals: nat)
    ensures PyParse(s, decimals).Value? <==> exists i, f :: Joins(s, i, f, decimals)
    ensures PyParse(s, decimals).TooPrecise? <==> |Split(s).1| > decimals
  {
    var (i, f) := Split(s);
    SplitJoins(s);
    if PyParse(s, decimals).Value? {
      assert Joins(s, i, f, decimals);
    }
    if j, g :| Joins(s, j, g, decimals) {
      SplitAtPoint(j, g);
    }
  }

  /** The value read, times ten to the length of the fraction, is all the digits read as one number, scaled. */
  lemma ParseMeans(s: string, i: string, f: string, decimals: nat)
    requires Joins(s, i, f, decimals)
    ensures PyParse(s, decimals).Value?
    ensures PyParse(s, decimals).value * Pow10(|f|) == DecValue(i + f) * Pow10(decimals)
  {
    SplitAtPoint(i, f);
    DecValueAppend(i, f);
    Pow10Adds(|f|, decimals - |f|);
    ScaledDigits(DecValue(i), DecValue(f), Pow10(|f|), Pow10(decimals - |f|));
  }

  lemma ScaledDigits(i: nat, f: nat, p: nat, q: nat)
    ensures (Times(i, p * q) + Times(f, q)) * p == (Times(i, p) + f) * (p * q)
  {
    calc {
      (i * (p * q) + f * q) * p;
      { Assoc(i, p * q, p); }
      i * (p * q) * p + f * q * p;
      { Assoc(f, q, p); Assoc(i, p, p * q); }
      i * p * (p * q) + f * (p * q);
      (i * p + f) * (p * q);
    }
  }

  /** Whatever text was parsed, formatting its value is canonical and a fixed point of parsing and formatting. */
  lemma FormatIsStable(s: string, decimals: nat)
    requires PyParse(s, decimals).Value?
    ensures var t := Format(PyParse(s, decimals).value, decimals);
      && Canonical(t, decimals)
      && PyParse(t, decimals) == PyParse(s, decimals)
      && Format(PyParse(t, decimals).value, decimals) == t
  {
    FormatThenParse(PyParse(s, decimals).value, decimals);
  }

  // ----- 256 bits -----

  /** Where the scale exists, Rust accepts exactly what Python accepts with a 256-bit value, and reads it the same;
      it never panics. */
  lemma RustAgreesWithPython(s: string, decimals: nat)
    requires decimals <= 77
    ensures RustParse(s, decimals) != Aborted
    ensures var p := PyParse(s, decimals);
      RustParse(s, decimals).Value? <==> p.Value? && p.value <= U256_MAX
    ensures RustParse(s, decimals).Value? ==> RustParse(s, decimals) == PyParse(s, decimals)
  {
    var (i, f) := Split(s);
    if |f| <= decimals {
      PowersFit(decimals);
      PowersFit(decimals - |f|);
      if AllDigits(i) { MulMono(1, Pow10(decimals), DecValue(i)); }
      if AllDigits(f) {
        FractionBelowScale(f, decimals);
        MulMono(1, Pow10(decimals - |f|), DecValue(f));
      }
    }
  }

  /** Round trip in Rust: for every 256-bit value and up to 77 decimals, with no intermediate overflow. */
  lemma RustRoundTrip(value: u256, decimals: nat)
    requires decimals <= 77
    ensures RustParse(Format(value, decimals), decimals) == Value(value)
  {
    FormatThenParse(value, decimals);
    RustAgreesWithPython(Format(value, decimals), decimals);
  }

  /** Past 77 decimals the Rust parser panics on every text that gets that far. */
  lemma RustPanicsPastTheScale(s: string, decimals: nat)
    requires decimals >= 78
    ensures RustParse(s, decimals) == Aborted <==> |Split(s).1| <= decimals && FromDec(Split(s).0).Some?
  {
    PowersFit(decimals);
  }
}
