/** Ranking arithmetic of the split: the rate order, the in-place sort, saturation and pro-rata floors. */
module SplitPlanner {
  import opened Arith
  import opened Chain

  const SATURATION_TOLERANCE_BPS: nat := 100
  const BPS: nat := 10_000
  const MAX_SATURATION_STEPS: nat := 8

  /** `fill` of the input token quoted to yield `out`. */
  datatype Candidate = Candidate(venue: Address, fill: u256, out: u256)

  /** What candidate gathering lets through for an order of `amountIn`. */
  predicate Usable(c: Candidate, amountIn: nat) {
    1 <= c.fill <= amountIn && 1 <= c.out <= U128_MAX
  }

  predicate AllUsable(cands: seq<Candidate>, amountIn: nat) {
    forall i :: 0 <= i < |cands| ==> Usable(cands[i], amountIn)
  }

  /** `betterThan` without its overflow check: higher rate first, ties towards the larger fill. */
  predicate Better(a: Candidate, b: Candidate) {
    var lhs, rhs := a.out * b.fill, b.out * a.fill;
    if lhs != rhs then lhs > rhs else a.fill > b.fill
  }

  /** No later candidate beats an earlier one. */
  ghost predicate Ranked(cands: seq<Candidate>) {
    forall i, j :: 0 <= i < j < |cands| ==> !Better(cands[j], cands[i])
  }

  /** Rates, compared by cross-multiplication, are transitive because fills are positive. */
  lemma RateTransitive(a: Candidate, b: Candidate, c: Candidate)
    requires a.fill > 0 && b.fill > 0 && c.fill > 0
    requires a.out * b.fill >= b.out * a.fill && b.out * c.fill >= c.out * b.fill
    ensures a.out * c.fill >= c.out * a.fill
    ensures a.out * c.fill == c.out * a.fill ==>
      a.out * b.fill == b.out * a.fill && b.out * c.fill == c.out * b.fill
  {
    calc {
      (a.out * c.fill) * b.fill;
      (a.out * b.fill) * c.fill;
    >= { MulMono(b.out * a.fill, a.out * b.fill, c.fill); }
      (b.out * a.fill) * c.fill;
      (b.out * c.fill) * a.fill;
    >= { MulMono(c.out * b.fill, b.out * c.fill, a.fill); }
      (c.out * b.fill) * a.fill;
      (c.out * a.fill) * b.fill;
    }
    MulCancel(c.out * a.fill, a.out * c.fill, b.fill);
    if a.out * c.fill == c.out * a.fill {
      assert (a.out * b.fill) * c.fill == (b.out * a.fill) * c.fill;
      MulCancel(a.out * b.fill, b.out * a.fill, c.fill);
      assert (b.out * c.fill) * a.fill == (c.out * b.fill) * a.fill;
      MulCancel(b.out * c.fill, c.out * b.fill, a.fill);
    }
  }

  /** `Better` is a strict weak order: "does not beat" is transitive (and total, by its definition). */
  lemma NotBetterTransitive(a: Candidate, b: Candidate, c: Candidate)
    requires a.fill > 0 && b.fill > 0 && c.fill > 0
    requires !Better(b, a) && !Better(c, b)
    ensures !Better(c, a)
  {
    RateTransitive(a, b, c);
  }

  // ----- Insertion sort -----

  /** Where `key` lands when it moves left past every trailing candidate it beats. */
  function Insert(key: Candidate, s: seq<Candidate>): seq<Candidate> {
    if |s| == 0 || !Better(key, s[|s| - 1]) then s + [key]
    else Insert(key, s[..|s| - 1]) + [s[|s| - 1]]
  }

  function Sorted(s: seq<Candidate>): seq<Candidate> {
    if |s| == 0 then [] else Insert(s[|s| - 1], Sorted(s[..|s| - 1]))
  }

  lemma {:induction false} InsertKeeps(key: Candidate, s: seq<Candidate>)
    ensures multiset(Insert(key, s)) == multiset(s) + multiset{key}
    ensures |Insert(key, s)| == |s| + 1
  {
    if |s| == 0 || !Better(key, s[|s| - 1]) {
    } else {
      InsertKeeps(key, s[..|s| - 1]);
      assert s == s[..|s| - 1] + [s[|s| - 1]];
    }
  }

  lemma {:induction false} InsertRanks(key: Candidate, s: seq<Candidate>)
    requires Ranked(s) && key.fill > 0 && forall i :: 0 <= i < |s| ==> s[i].fill > 0
    ensures Ranked(Insert(key, s))
  {
    var n := |s|;
    if n == 0 {
    } else if !Better(key, s[n - 1]) {
      forall i | 0 <= i < n
        ensures !Better(key, s[i])
      {
        if i < n - 1 { NotBetterTransitive(s[i], s[n - 1], key); }
      }
    } else {
      var last, front := s[n - 1], s[..n - 1];
      var r := Insert(key, front);
      InsertRanks(key, front);
      InsertKeeps(key, front);
      forall i | 0 <= i < |r|
        ensures !Better(last, r[i])
      {
        assert r[i] in multiset(r);
        assert r[i] in multiset(front) || r[i] == key;
        if r[i] in front {
          var k :| 0 <= k < |front| && front[k] == r[i];
          assert !Better(s[n - 1], s[k]);
        }
      }
    }
  }

  /** The sort permutes its input and leaves no later candidate beating an earlier one. */
  lemma {:induction false} SortedIsRankedPermutation(s: seq<Candidate>)
    requires forall i :: 0 <= i < |s| ==> s[i].fill > 0
    ensures multiset(Sorted(s)) == multiset(s) && |Sorted(s)| == |s|
    ensures Ranked(Sorted(s))
    ensures var r := Sorted(s);
      forall i, j :: 0 <= i < j < |r| ==>
        && r[i].out * r[j].fill >= r[j].out * r[i].fill
        && (r[i].out * r[j].fill == r[j].out * r[i].fill ==> r[i].fill >= r[j].fill)
  {
    if |s| == 0 {
    } else {
      var front := s[..|s| - 1];
      SortedIsRankedPermutation(front);
      InsertKeeps(s[|s| - 1], Sorted(front));
      assert s == front + [s[|s| - 1]];
      forall i | 0 <= i < |Sorted(front)|
        ensures Sorted(front)[i].fill > 0
      {
        assert Sorted(front)[i] in multiset(Sorted(front));
        assert Sorted(front)[i] in front;
      }
      InsertRanks(s[|s| - 1], Sorted(front));
    }
  }

  /** The candidates of this fill and output, in order. */
  function Alike(s: seq<Candidate>, fill: u256, out: u256): seq<Candidate> {
    if |s| == 0 then []
    else
      var front, last := Alike(s[..|s| - 1], fill, out), s[|s| - 1];
      if last.fill == fill && last.out == out then front + [last] else front
  }

  lemma AlikeAppend(s: seq<Candidate>, c: Candidate, fill: u256, out: u256)
    ensures Alike(s + [c], fill, out) ==
      if c.fill == fill && c.out == out then Alike(s, fill, out) + [c] else Alike(s, fill, out)
  {
    assert (s + [c])[..|s|] == s;
  }

  lemma {:induction false} InsertIsStable(key: Candidate, s: seq<Candidate>, fill: u256, out: u256)
    ensures Alike(Insert(key, s), fill, out) == Alike(s + [key], fill, out)
  {
    AlikeAppend(s, key, fill, out);
    if |s| > 0 && Better(key, s[|s| - 1]) {
      var front, last := s[..|s| - 1], s[|s| - 1];
      InsertIsStable(key, front, fill, out);
      AlikeAppend(front, key, fill, out);
      AlikeAppend(Insert(key, front), last, fill, out);
    }
  }

  /** The sort is stable: among candidates of the same fill and output, the one gathered first goes first. */
  lemma {:induction false} SortIsStable(s: seq<Candidate>, fill: u256, out: u256)
    ensures Alike(Sorted(s), fill, out) == Alike(s, fill, out)
  {
    if |s| > 0 {
      var front, last := s[..|s| - 1], s[|s| - 1];
      SortIsStable(front, fill, out);
      InsertIsStable(last, Sorted(front), fill, out);
      AlikeAppend(Sorted(front), last, fill, out);
      AlikeAppend(front, last, fill, out);
      assert front + [last] == s;
    }
  }

  lemma SortedKeepsUsable(s: seq<Candidate>, amountIn: nat)
    requires AllUsable(s, amountIn)
    ensures AllUsable(Sorted(s), amountIn)
  {
    SortedIsRankedPermutation(s);
    forall i | 0 <= i < |Sorted(s)|
      ensures Usable(Sorted(s)[i], amountIn)
    {
      assert Sorted(s)[i] in multiset(Sorted(s));
      assert Sorted(s)[i] in s;
    }
  }

  /** `betterThan`, in checked arithmetic: neither product overflows on usable candidates. */
  method BetterThan(a: Candidate, b: Candidate) returns (r: bool)
    requires a.fill <= U128_MAX && a.out <= U128_MAX && b.fill <= U128_MAX && b.out <= U128_MAX
    ensures r == Better(a, b)
  {
    ProductFits(a.out, b.fill);
    ProductFits(b.out, a.fill);
    var lhs: u256 := a.out * b.fill;
    var rhs: u256 := b.out * a.fill;
    if lhs != rhs { return lhs > rhs; }
    return a.fill > b.fill;
  }

  ghost predicate Narrow(c: seq<Candidate>) {
    forall k :: 0 <= k < |c| ==> c[k].fill <= U128_MAX && c[k].out <= U128_MAX
  }

  lemma Slide(key: Candidate, s: seq<Candidate>, j: nat)
    requires 0 < j <= |s|
    ensures if Better(key, s[j - 1]) then Insert(key, s[..j]) + s[j..] == Insert(key, s[..j - 1]) + s[j - 1..]
            else Insert(key, s[..j]) == s[..j] + [key]
  {
    assert s[..j][j - 1] == s[j - 1] && s[..j][..j - 1] == s[..j - 1];
    assert s[j - 1..] == [s[j - 1]] + s[j..];
  }

  /** The array while a candidate is in hand: those after position `j`, up to `i`, have moved one to the right. */
  function Parted(was: seq<Candidate>, i: nat, j: nat): (r: seq<Candidate>)
    requires j <= i < |was|
    ensures |r| == |was|
  {
    was[..j + 1] + was[j..i] + was[i + 1..]
  }

  lemma PartedStep(was: seq<Candidate>, i: nat, j: nat, x: Candidate)
    requires j <= i < |was|
    ensures Parted(was, i, j)[j := x] == was[..j] + [x] + was[j..i] + was[i + 1..]
    ensures j > 0 ==> Parted(was, i, j)[j - 1] == was[j - 1]
    ensures j > 0 ==> Parted(was, i, j)[j := was[j - 1]] == Parted(was, i, j - 1)
    ensures Parted(was, i, i) == was
  {}

  /** The inner loop of `sortByRateDesc`: slides `c[i]` left past the candidates it beats. */
  method InsertAt(c: array<Candidate>, i: nat)
    requires 0 < i < c.Length && Narrow(c[..])
    modifies c
    ensures c[..] == Insert(old(c[i]), old(c[..i])) + old(c[i + 1..])
  {
    ghost var was := c[..];
    ghost var prefix := was[..i];
    var key := c[i];
    var j := i;
    assert prefix[..i] == prefix;
    PartedStep(was, i, i, key);
    while j > 0
      invariant 0 <= j <= i && c[..] == Parted(was, i, j)
      invariant Insert(key, prefix) == Insert(key, prefix[..j]) + prefix[j..]
    {
      PartedStep(was, i, j, key);
      assert c[..][j - 1] == prefix[j - 1];
      Slide(key, prefix, j);
      var beats := BetterThan(key, c[j - 1]);
      if !beats { break; }
      c[j] := c[j - 1];
      j := j - 1;
    }
    c[j] := key;
    PartedStep(was, i, j, key);
    assert Insert(key, prefix[..j]) == prefix[..j] + [key];
    assert prefix[..j] == was[..j] && prefix[j..] == was[j..i];
  }

  /** `sortByRateDesc`, in place. */
  method SortByRateDesc(c: array<Candidate>)
    requires Narrow(c[..])
    modifies c
    ensures c[..] == Sorted(old(c[..]))
  {
    if c.Length == 0 { return; }
    ghost var was := c[..];
    var i := 1;
    SortStep(was, 0, was);
    while i < c.Length
      invariant 1 <= i <= c.Length
      invariant c[..] == Sorted(was[..i]) + was[i..] && Narrow(c[..])
    {
      SortStep(was, i, c[..]);
      InsertAt(c, i);
      i := i + 1;
    }
    assert was[..i] == was && was[i..] == [];
  }

  lemma SortedSnoc(was: seq<Candidate>, i: nat)
    requires i < |was|
    ensures Sorted(was[..i + 1]) == Insert(was[i], Sorted(was[..i])) && |Sorted(was[..i])| == i
  {
    SortedLength(was[..i]);
    assert was[..i + 1][..i] == was[..i];
  }

  lemma Halves(a: seq<Candidate>, b: seq<Candidate>)
    requires |b| > 0
    ensures (a + b)[..|a|] == a && (a + b)[|a|] == b[0] && (a + b)[|a| + 1..] == b[1..]
  {}

  /** `cur` has its first `i` candidates sorted; inserting the next one sorts one more. */
  lemma SortStep(was: seq<Candidate>, i: nat, cur: seq<Candidate>)
    requires i < |was| && cur == Sorted(was[..i]) + was[i..] && Narrow(cur)
    ensures |cur| == |was|
    ensures Insert(cur[i], cur[..i]) + cur[i + 1..] == Sorted(was[..i + 1]) + was[i + 1..]
    ensures Narrow(Insert(cur[i], cur[..i]) + cur[i + 1..])
    ensures i == 0 ==> Insert(cur[0], cur[..0]) + cur[1..] == cur
  {
    SortedSnoc(was, i);
    Halves(Sorted(was[..i]), was[i..]);
    assert was[i..][1..] == was[i + 1..];
    InsertStays(cur[i], cur[..i]);
    if i == 0 { assert cur == [cur[0]] + cur[1..]; }
  }

  lemma SortedLength(s: seq<Candidate>)
    ensures |Sorted(s)| == |s|
  {
    if |s| > 0 { InsertKeeps(s[|s| - 1], Sorted(s[..|s| - 1])); }
  }

  /** Insertion moves candidates without altering any. */
  lemma {:induction false} InsertStays(key: Candidate, s: seq<Candidate>)
    ensures Narrow(s) && Narrow([key]) ==> Narrow(Insert(key, s))
  {
    if |s| == 0 || !Better(key, s[|s| - 1]) {
      assert Narrow([key]) ==> [key][0].fill <= U128_MAX && [key][0].out <= U128_MAX;
    } else {
      InsertStays(key, s[..|s| - 1]);
    }
  }

  // ----- Saturation and floors -----

  /** The full-size quote is more than 1% short of twice the half-size quote. */
  predicate Saturated(outFull: nat, outHalf: nat) {
    outFull * BPS < 2 * outHalf * (BPS - SATURATION_TOLERANCE_BPS)
  }

  /** `isSaturated`, in checked arithmetic. */
  method IsSaturated(outFull: u256, outHalf: u256) returns (r: bool)
    requires outFull <= U128_MAX && outHalf <= U128_MAX
    ensures r == Saturated(outFull, outHalf)
  {
    var lhs: u256 := outFull * BPS;
    var twice: u256 := 2 * outHalf;
    var rhs: u256 := twice * (BPS - SATURATION_TOLERANCE_BPS);
    r := lhs < rhs;
  }

  /** A leg's floor: the quote's pro-rata share of a leg of size `leg`, rounded down. */
  function ProRata(out: nat, fill: nat, leg: nat): nat
    requires 0 < fill
  {
    out * leg / fill
  }

  /** The floor is the largest amount whose rate over the leg does not exceed the ranking quote's rate. */
  lemma ProRataIsTightFloor(out: nat, fill: nat, leg: nat)
    requires 0 < fill
    ensures ProRata(out, fill, leg) * fill <= out * leg < (ProRata(out, fill, leg) + 1) * fill
    ensures leg == fill ==> ProRata(out, fill, leg) == out
    ensures leg <= fill ==> ProRata(out, fill, leg) <= out
  {
    var q := ProRata(out, fill, leg);
    assert out * leg == q * fill + (out * leg) % fill;
    if leg <= fill {
      MulMono(leg, fill, out);
      MulCancel(q, out, fill);
    }
    if leg == fill && q < out {
      MulMono(q + 1, out, fill);
    }
  }

  /** `proRataMin`, in checked arithmetic. */
  method ProRataMin(out: u256, fill: u256, leg: u256) returns (r: u256)
    requires 0 < fill && out <= U128_MAX && leg <= fill <= U128_MAX
    ensures r == ProRata(out, fill, leg) <= U128_MAX
  {
    ProRataIsTightFloor(out, fill, leg);
    if leg == fill { return out; }
    ProductFits(out, leg);
    var product: u256 := out * leg;
    r := product / fill;
  }
}
