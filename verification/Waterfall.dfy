/** The greedy waterfall: which candidates get a leg, how large, and why the scan may stop early. */
module Waterfall {
  import opened Arith
  import opened Chain
  import opened SplitPlanner

  const MAX_LEGS: nat := 5

  datatype Leg = Leg(venue: Address, amountIn: u256, minOut: u256)

  /** The fallback's price: selling `size` yields `out`. */
  datatype Ref = Ref(size: nat, out: nat)

  /** The candidate's rate does not beat the reference. */
  predicate Contested(c: Candidate, ref: Ref) {
    c.out * ref.size <= ref.out * c.fill
  }

  /** The state of the loop. `legs` holds prop legs only. */
  datatype Scan = Scan(world: World, ref: Ref, refined: bool, remaining: u256, legs: seq<Leg>)

  /** What a plan needs besides the candidates. */
  datatype Order = Order(env: Env, cfg: Config, pair: Pair, amountIn: u256)

  /** The candidate's rate is strictly higher than the reference's. */
  predicate Beats(c: Candidate, ref: Ref) {
    c.out * ref.size > ref.out * c.fill
  }

  // ----- The loop as functions -----

  /** What is left of `amountIn` after the first `n` candidates took their fill, never below zero. */
  function Left(cands: seq<Candidate>, n: nat, amountIn: u256): (r: u256)
    requires n <= |cands|
    ensures r <= amountIn
  {
    if n == 0 then amountIn
    else
      var before := Left(cands, n - 1, amountIn);
      if cands[n - 1].fill >= before then 0 else before - cands[n - 1].fill
  }

  function Placeable(cands: seq<Candidate>): (n: nat)
    ensures n <= |cands| && n <= MAX_LEGS
  {
    if |cands| < MAX_LEGS then |cands| else MAX_LEGS
  }

  /** The size the reference is first quoted at: the least that can be left over, but no dust. */
  function RefSize(cands: seq<Candidate>, amountIn: u256): (r: u256) {
    var lb := Left(cands, Placeable(cands), amountIn);
    var size: u256 := if lb > amountIn / 100 then lb else amountIn / 100;
    if size == 0 then 1 else size
  }

  /** The fallback's answer at `size`, where anything past 128 bits reads as no answer. */
  function FallbackQuote(o: Order, w: World, size: u256): (r: Priced)
    ensures r.out <= U128_MAX && r == Quoted(o.env, w, o.cfg.fallback, o.pair, size)
  {
    var p := TryQuote(o.env, o.cfg, w, o.cfg.fallback, o.pair, size);
    if p.out > U128_MAX then p.(out := 0) else p
  }

  function Start(o: Order, cands: seq<Candidate>, w: World): (s: Scan) {
    var size := RefSize(cands, o.amountIn);
    var p := FallbackQuote(o, w, size);
    Scan(p.world, Ref(size, p.out), false, o.amountIn, [])
  }

  /** A first contested candidate has the reference quoted again, at what is really left; an unusable answer
      changes nothing but the world. */
  function Reconsider(o: Order, c: Candidate, s: Scan): (r: Scan)
    ensures r.remaining == s.remaining && r.legs == s.legs
  {
    if !Contested(c, s.ref) || s.refined then s
    else
      var p := TryQuote(o.env, o.cfg, s.world, o.cfg.fallback, o.pair, s.remaining);
      s.(world := p.world, refined := true,
         ref := if p.out != 0 && p.out <= U128_MAX then Ref(s.remaining, p.out) else s.ref)
  }

  function LegFor(c: Candidate, remaining: u256): (leg: Leg)
    requires 0 < c.fill && c.out <= U128_MAX
  {
    var size: u256 := if c.fill >= remaining then remaining else c.fill;
    ProRataIsTightFloor(c.out, c.fill, size);
    Leg(c.venue, size, ProRata(c.out, c.fill, size))
  }

  function Place(c: Candidate, s: Scan): Scan
    requires 0 < c.fill && c.out <= U128_MAX
  {
    var leg := LegFor(c, s.remaining);
    s.(legs := s.legs + [leg], remaining := s.remaining - leg.amountIn)
  }

  predicate Going(cands: seq<Candidate>, i: nat, s: Scan) {
    i < |cands| && s.remaining > 0 && |s.legs| < MAX_LEGS
  }

  /** The loop from candidate `i` on. */
  function Fill(o: Order, cands: seq<Candidate>, i: nat, s: Scan): Scan
    requires AllUsable(cands, o.amountIn)
    decreases |cands| - i
  {
    if !Going(cands, i, s) then s
    else
      var r := Reconsider(o, cands[i], s);
      if Contested(cands[i], r.ref) then r else Fill(o, cands, i + 1, Place(cands[i], r))
  }

  /** The legs a finished scan turns into: what no venue took goes to the fallback. */
  function WithRemainder(cfg: Config, s: Scan): seq<Leg> {
    if s.remaining > 0 then s.legs + [Leg(cfg.fallback, s.remaining, 0)] else s.legs
  }

  datatype Plan = Plan(world: World, legs: seq<Leg>)

  /** `_waterfall` on ranked candidates. */
  function PlanFor(o: Order, cands: seq<Candidate>, w: World): Plan
    requires AllUsable(cands, o.amountIn)
  {
    if |cands| == 0 then Plan(w, [Leg(o.cfg.fallback, o.amountIn, 0)])
    else
      var s := Fill(o, cands, 0, Start(o, cands, w));
      Plan(s.world, WithRemainder(o.cfg, s))
  }

  // ----- The shape of every plan -----

  /** The legs of the first `m` candidates, each as large as its fill or what is left. */
  function PropLegs(cands: seq<Candidate>, m: nat, amountIn: u256): (legs: seq<Leg>)
    requires m <= |cands| && AllUsable(cands, amountIn)
    ensures |legs| == m
  {
    if m == 0 then []
    else PropLegs(cands, m - 1, amountIn) + [LegFor(cands[m - 1], Left(cands, m - 1, amountIn))]
  }

  function Total(legs: seq<Leg>): nat {
    if |legs| == 0 then 0 else Total(legs[..|legs| - 1]) + legs[|legs| - 1].amountIn
  }

  lemma TotalAppend(legs: seq<Leg>, leg: Leg)
    ensures Total(legs + [leg]) == Total(legs) + leg.amountIn
  {
    assert (legs + [leg])[..|legs|] == legs;
  }

  /** The scan has served a prefix of the ranking, in order. */
  ghost predicate Served(o: Order, cands: seq<Candidate>, i: nat, s: Scan)
    requires AllUsable(cands, o.amountIn)
  {
    && i <= |cands| && i <= MAX_LEGS
    && s.legs == PropLegs(cands, i, o.amountIn)
    && s.remaining == Left(cands, i, o.amountIn)
    && s.ref.out <= U128_MAX && 0 < s.ref.size
    && (i > 0 ==> Left(cands, i - 1, o.amountIn) > 0)
  }

  lemma {:induction false} FillServes(o: Order, cands: seq<Candidate>, i: nat, s: Scan) returns (m: nat)
    requires AllUsable(cands, o.amountIn) && Served(o, cands, i, s)
    ensures i <= m && Served(o, cands, m, Fill(o, cands, i, s))
    decreases |cands| - i
  {
    m := i;
    if Going(cands, i, s) {
      var r := Reconsider(o, cands[i], s);
      if !Contested(cands[i], r.ref) {
        m := FillServes(o, cands, i + 1, Place(cands[i], r));
      }
    }
  }

  lemma {:induction false} LeftDecreases(cands: seq<Candidate>, k: nat, n: nat, amountIn: u256)
    requires k <= n <= |cands|
    ensures Left(cands, n, amountIn) <= Left(cands, k, amountIn)
  {
    if k < n { LeftDecreases(cands, k, n - 1, amountIn); }
  }

  lemma {:induction false} PropLegAt(cands: seq<Candidate>, m: nat, amountIn: u256, k: nat)
    requires k < m <= |cands| && AllUsable(cands, amountIn)
    ensures PropLegs(cands, m, amountIn)[k] == LegFor(cands[k], Left(cands, k, amountIn))
  {
    if k < m - 1 { PropLegAt(cands, m - 1, amountIn, k); }
  }

  /** The prop legs and what is left of the order make up the order. */
  lemma {:induction false} PropLegsTotal(cands: seq<Candidate>, m: nat, amountIn: u256)
    requires m <= |cands| && AllUsable(cands, amountIn)
    ensures Total(PropLegs(cands, m, amountIn)) + Left(cands, m, amountIn) == amountIn
  {
    if m > 0 {
      PropLegsTotal(cands, m - 1, amountIn);
      TotalAppend(PropLegs(cands, m - 1, amountIn), LegFor(cands[m - 1], Left(cands, m - 1, amountIn)));
    }
  }

  /** A leg cut from a candidate: positive, within its fill, floored at the ranking quote's rate. */
  predicate Carved(leg: Leg, c: Candidate) {
    && 0 < c.fill
    && leg.venue == c.venue
    && 0 < leg.amountIn <= c.fill
    && leg.minOut == ProRata(c.out, c.fill, leg.amountIn)
  }

  /** Every prop leg is positive, within its candidate's fill and floored at the ranking quote's rate; all but the
      last take their candidate's whole fill, and so does the last when something is left over. */
  lemma PropLegsShape(cands: seq<Candidate>, m: nat, amountIn: u256, k: nat)
    requires k < m <= |cands| && AllUsable(cands, amountIn) && Left(cands, m - 1, amountIn) > 0
    ensures var leg := PropLegs(cands, m, amountIn)[k];
      && Carved(leg, cands[k])
      && (k < m - 1 || Left(cands, m, amountIn) > 0 ==> leg.amountIn == cands[k].fill)
  {
    PropLegAt(cands, m, amountIn, k);
    LeftDecreases(cands, k, m - 1, amountIn);
    if k < m - 1 { LeftDecreases(cands, k + 1, m - 1, amountIn); }
  }

  /** `legs` is `m` prop legs for the top `m` candidates, then at most one fallback leg for the rest of the order. */
  ghost predicate WellShaped(cfg: Config, cands: seq<Candidate>, amountIn: u256, legs: seq<Leg>, m: nat)
  {
    && m <= |cands| && m <= MAX_LEGS && m <= |legs| <= m + 1
    && Total(legs) == amountIn
    && (forall k :: 0 <= k < m ==> Carved(legs[k], cands[k]))
    && (forall k :: 0 <= k < m && k < |legs| - 1 ==> legs[k].amountIn == cands[k].fill)
    && (|legs| == m + 1 ==> legs[m].venue == cfg.fallback && 0 < legs[m].amountIn && legs[m].minOut == 0)
  }

  lemma ServedShape(o: Order, cands: seq<Candidate>, m: nat, s: Scan)
    requires AllUsable(cands, o.amountIn) && Served(o, cands, m, s) && 0 < o.amountIn
    ensures WellShaped(o.cfg, cands, o.amountIn, WithRemainder(o.cfg, s), m)
    ensures 0 < |WithRemainder(o.cfg, s)|
  {
    PropLegsTotal(cands, m, o.amountIn);
    forall k | 0 <= k < m
      ensures Carved(s.legs[k], cands[k])
      ensures k < m - 1 || s.remaining > 0 ==> s.legs[k].amountIn == cands[k].fill
    {
      PropLegsShape(cands, m, o.amountIn, k);
    }
    if s.remaining > 0 { TotalAppend(s.legs, Leg(o.cfg.fallback, s.remaining, 0)); }
  }

  /** Whatever the venues and the quoter answer, the plan has this shape; its legs sum to the order, so
      `SplitAllocationMismatch` cannot come from the planner. */
  lemma PlanShape(o: Order, cands: seq<Candidate>, w: World) returns (m: nat)
    requires AllUsable(cands, o.amountIn) && 0 < o.amountIn
    ensures WellShaped(o.cfg, cands, o.amountIn, PlanFor(o, cands, w).legs, m)
    ensures 0 < |PlanFor(o, cands, w).legs| <= MAX_LEGS + 1
  {
    m := 0;
    var legs := PlanFor(o, cands, w).legs;
    if |cands| == 0 {
      assert legs == [] + [Leg(o.cfg.fallback, o.amountIn, 0)];
      TotalAppend([], legs[0]);
    } else {
      m := FillServes(o, cands, 0, Start(o, cands, w));
      ServedShape(o, cands, m, Fill(o, cands, 0, Start(o, cands, w)));
    }
  }

  // ----- Early exit refines a full scan -----

  /** The loop that never breaks: it skips a candidate the settled reference contests and tests the next one. */
  function FullScan(o: Order, cands: seq<Candidate>, i: nat, s: Scan): Scan
    requires AllUsable(cands, o.amountIn)
    decreases |cands| - i
  {
    if !Going(cands, i, s) then s
    else
      var r := Reconsider(o, cands[i], s);
      FullScan(o, cands, i + 1, if Contested(cands[i], r.ref) then r else Place(cands[i], r))
  }

  /** A contested candidate condemns everything ranked below it. */
  lemma ContestedBelow(a: Candidate, b: Candidate, ref: Ref)
    requires 0 < a.fill && 0 < b.fill && !Better(b, a)
    requires Contested(a, ref)
    ensures Contested(b, ref)
  {
    calc {
      (b.out * ref.size) * a.fill;
      (b.out * a.fill) * ref.size;
    <= { MulMono(b.out * a.fill, a.out * b.fill, ref.size); }
      (a.out * b.fill) * ref.size;
      (a.out * ref.size) * b.fill;
    <= { MulMono(a.out * ref.size, ref.out * a.fill, b.fill); }
      (ref.out * a.fill) * b.fill;
      (ref.out * b.fill) * a.fill;
    }
    MulCancel(b.out * ref.size, ref.out * b.fill, a.fill);
  }

  lemma {:induction false} FullScanSkips(o: Order, cands: seq<Candidate>, i: nat, j: nat, s: Scan)
    requires AllUsable(cands, o.amountIn) && Ranked(cands)
    requires i < j && i < |cands| && s.refined && Contested(cands[i], s.ref)
    ensures FullScan(o, cands, j, s) == s
    decreases |cands| - j
  {
    if Going(cands, j, s) {
      ContestedBelow(cands[i], cands[j], s.ref);
      FullScanSkips(o, cands, i, j + 1, s);
    }
  }

  /** On ranked candidates the `break` loses nothing: the scan that tests every remaining candidate ends in the
      same state, leg for leg. */
  lemma {:induction false} EarlyExitIsFullScan(o: Order, cands: seq<Candidate>, i: nat, s: Scan)
    requires AllUsable(cands, o.amountIn) && Ranked(cands)
    ensures Fill(o, cands, i, s) == FullScan(o, cands, i, s)
    decreases |cands| - i
  {
    if Going(cands, i, s) {
      var r := Reconsider(o, cands[i], s);
      if Contested(cands[i], r.ref) {
        FullScanSkips(o, cands, i, i + 1, r);
      } else {
        EarlyExitIsFullScan(o, cands, i + 1, Place(cands[i], r));
      }
    }
  }

  // ----- Quiet quotes -----

  lemma {:induction false} FillIsQuiet(o: Order, cands: seq<Candidate>, i: nat, s: Scan, token: Address, who: Address)
    requires AllUsable(cands, o.amountIn) && Quiet(o.env, token, who)
    ensures Bal(Fill(o, cands, i, s).world, token, who) >= Bal(s.world, token, who)
    decreases |cands| - i
  {
    if Going(cands, i, s) {
      var r := Reconsider(o, cands[i], s);
      if !Contested(cands[i], r.ref) { FillIsQuiet(o, cands, i + 1, Place(cands[i], r), token, who); }
    }
  }

  /** Pricing the fallback costs nobody what no quote costs them. */
  lemma PlanIsQuiet(o: Order, cands: seq<Candidate>, w: World, token: Address, who: Address)
    requires AllUsable(cands, o.amountIn) && Quiet(o.env, token, who)
    ensures Bal(PlanFor(o, cands, w).world, token, who) >= Bal(w, token, who)
  {
    if |cands| > 0 { FillIsQuiet(o, cands, 0, Start(o, cands, w), token, who); }
  }

  // ----- A loss while pricing the fallback stays -----

  lemma {:induction false} FillKeepsLoss(o: Order, cands: seq<Candidate>, i: nat, s: Scan, token: Address, who: Address,
                                         snap: nat)
    requires AllUsable(cands, o.amountIn) && Lasting(o.env, token, who, snap)
    ensures Short(s.world, token, who, snap) ==> Short(Fill(o, cands, i, s).world, token, who, snap)
    ensures Refines(cands, i, s) && Short(Requote(o, s).world, token, who, snap) ==>
      Short(Fill(o, cands, i, s).world, token, who, snap)
    decreases |cands| - i
  {
    if Going(cands, i, s) {
      var r := Reconsider(o, cands[i], s);
      if !Contested(cands[i], r.ref) { FillKeepsLoss(o, cands, i + 1, Place(cands[i], r), token, who, snap); }
    }
  }

  lemma {:induction false} UnrefinedLeadsOn(o: Order, cands: seq<Candidate>, i: nat, s: Scan)
    requires AllUsable(cands, o.amountIn) && |s.legs| == i && !s.refined
    ensures var at := FillUnrefined(o, cands, i, s);
      Fill(o, cands, i, s) == Fill(o, cands, |at.legs|, at) && !at.refined
    decreases |cands| - i
  {
    if Going(cands, i, s) && !Contested(cands[i], s.ref) { UnrefinedLeadsOn(o, cands, i + 1, Place(cands[i], s)); }
  }

  /** What was lost before, by the reference quote, or by the re-quote, is lost in the planned world. */
  lemma PlanKeepsLoss(o: Order, cands: seq<Candidate>, w: World, token: Address, who: Address, snap: nat)
    requires AllUsable(cands, o.amountIn) && Lasting(o.env, token, who, snap)
    ensures Short(w, token, who, snap) ==> Short(PlanFor(o, cands, w).world, token, who, snap)
    ensures |cands| > 0 ==>
      var reference := Quoted(o.env, w, o.cfg.fallback, o.pair, RefSize(cands, o.amountIn)).world;
      Short(reference, token, who, snap) ==> Short(PlanFor(o, cands, w).world, token, who, snap)
    ensures |cands| > 0 ==>
      var at := FillUnrefined(o, cands, 0, Start(o, cands, w));
      Refines(cands, |at.legs|, at) && Short(Requote(o, at).world, token, who, snap) ==>
        Short(PlanFor(o, cands, w).world, token, who, snap)
  {
    if |cands| > 0 {
      var s := Start(o, cands, w);
      FillKeepsLoss(o, cands, 0, s, token, who, snap);
      UnrefinedLeadsOn(o, cands, 0, s);
      var at := FillUnrefined(o, cands, 0, s);
      FillKeepsLoss(o, cands, |at.legs|, at, token, who, snap);
    }
  }

  // ----- The reference is quoted at the residual -----

  /** The input that the first `n` candidates ask for together. */
  function FillSum(cands: seq<Candidate>, n: nat): nat
    requires n <= |cands|
  {
    if n == 0 then 0 else FillSum(cands, n - 1) + cands[n - 1].fill
  }

  lemma {:induction false} LeftIsResidual(cands: seq<Candidate>, n: nat, amountIn: u256)
    requires n <= |cands|
    ensures Left(cands, n, amountIn) == if FillSum(cands, n) >= amountIn then 0 else amountIn - FillSum(cands, n)
  {
    if n > 0 { LeftIsResidual(cands, n - 1, amountIn); }
  }

  /** The reference size is the largest of three: what the five best candidates at most leave over, 1% of the order,
      and one unit. */
  lemma ReferenceAtResidual(cands: seq<Candidate>, amountIn: u256)
    ensures var size, best := RefSize(cands, amountIn), FillSum(cands, if |cands| < 5 then |cands| else 5);
      && size >= amountIn - best && size >= amountIn / 100 && size >= 1
      && (size == amountIn - best || size == amountIn / 100 || size == 1)
  {
    LeftIsResidual(cands, Placeable(cands), amountIn);
  }

  // ----- Refinement -----

  /** The loop with no second quote: the first contested candidate ends it. */
  function FillUnrefined(o: Order, cands: seq<Candidate>, i: nat, s: Scan): Scan
    requires AllUsable(cands, o.amountIn)
    decreases |cands| - i
  {
    if !Going(cands, i, s) || Contested(cands[i], s.ref) then s
    else FillUnrefined(o, cands, i + 1, Place(cands[i], s))
  }

  /** The legs only ever grow. */
  lemma {:induction false} FillExtends(o: Order, cands: seq<Candidate>, i: nat, s: Scan)
    requires AllUsable(cands, o.amountIn)
    ensures s.legs <= Fill(o, cands, i, s).legs
    decreases |cands| - i
  {
    if Going(cands, i, s) {
      var r := Reconsider(o, cands[i], s);
      if !Contested(cands[i], r.ref) { FillExtends(o, cands, i + 1, Place(cands[i], r)); }
    }
  }

  /** The fallback's prices are `price`, with zero for a size it refuses or answers out of range. */
  ghost predicate FallbackPrices(o: Order, price: nat -> nat) {
    forall w, size: u256 :: Quoted(o.env, w, o.cfg.fallback, o.pair, size).out == price(size)
  }

  ghost predicate Usable128(x: nat) { 0 < x <= U128_MAX }

  /** The unit rate never rises with size, among the sizes the fallback prices. */
  ghost predicate RateNeverRises(price: nat -> nat) {
    forall a, b :: 1 <= a <= b && Usable128(price(a)) && Usable128(price(b)) ==> price(b) * a <= price(a) * b
  }

  /** `remaining` is at least the residual the reference was quoted at, or the 1% floor stood in for it. */
  lemma RemainingVersusReference(o: Order, cands: seq<Candidate>, i: nat, s: Scan)
    requires AllUsable(cands, o.amountIn) && Served(o, cands, i, s) && s.remaining > 0
    ensures s.remaining >= Left(cands, Placeable(cands), o.amountIn)
    ensures s.remaining < RefSize(cands, o.amountIn) <==> s.remaining < o.amountIn / 100
  {
    LeftDecreases(cands, i, if i <= Placeable(cands) then Placeable(cands) else i, o.amountIn);
  }

  /** A rate ordering of references: whatever `b` contests, `a` contests. */
  ghost predicate NoLooser(a: Ref, b: Ref) {
    forall c: Candidate :: 0 < c.fill && Contested(c, b) ==> Contested(c, a)
  }

  lemma LowerRateLoosens(a: Ref, b: Ref)
    requires 0 < a.size && 0 < b.size && b.out * a.size <= a.out * b.size
    ensures NoLooser(a, b)
  {
    forall c: Candidate | 0 < c.fill && Contested(c, b)
      ensures Contested(c, a)
    {
      calc {
        (c.out * a.size) * b.size;
        (c.out * b.size) * a.size;
      <= { MulMono(c.out * b.size, b.out * c.fill, a.size); }
        (b.out * c.fill) * a.size;
        (b.out * a.size) * c.fill;
      <= { MulMono(b.out * a.size, a.out * b.size, c.fill); }
        (a.out * b.size) * c.fill;
        (a.out * c.fill) * b.size;
      }
      MulCancel(c.out * a.size, a.out * c.fill, b.size);
    }
  }

  /** One refinement under a fallback whose unit rate never rises. Unless earlier legs placed over 99% of the
      order, the adopted reference contests nothing the old one let through; if they did, the candidate that
      prompted the re-quote stays contested. */
  lemma RefinementIsSafe(o: Order, cands: seq<Candidate>, i: nat, s: Scan, price: nat -> nat)
    requires AllUsable(cands, o.amountIn) && Served(o, cands, i, s) && s.remaining > 0 && i < |cands|
    requires FallbackPrices(o, price) && RateNeverRises(price)
    requires !s.refined && s.ref == Ref(RefSize(cands, o.amountIn), price(RefSize(cands, o.amountIn)))
    requires Contested(cands[i], s.ref)
    ensures s.remaining >= o.amountIn / 100 ==> NoLooser(s.ref, Reconsider(o, cands[i], s).ref)
    ensures s.remaining < o.amountIn / 100 ==> Contested(cands[i], Reconsider(o, cands[i], s).ref)
  {
    RemainingVersusReference(o, cands, i, s);
    var c, r := cands[i], Reconsider(o, cands[i], s);
    if r.ref != s.ref {
      assert r.ref == Ref(s.remaining, FallbackQuote(o, s.world, s.remaining).out);
      if s.ref.out == 0 {
        assert Usable(c, o.amountIn);
        MulMono(1, c.out, s.ref.size);
        assert false;
      }
      assert Usable128(price(s.remaining)) && Usable128(price(s.ref.size));
      if s.remaining >= s.ref.size {
        LowerRateLoosens(s.ref, r.ref);
      } else {
        LowerRateLoosens(r.ref, s.ref);
      }
    }
  }

  /** The scan is about to refine at candidate `i`, in state `s`. */
  ghost predicate Refines(cands: seq<Candidate>, i: nat, s: Scan) {
    Going(cands, i, s) && !s.refined && Contested(cands[i], s.ref)
  }

  /** What the fallback answers when asked again, at what remains. */
  function Requote(o: Order, s: Scan): Priced { Quoted(o.env, s.world, o.cfg.fallback, o.pair, s.remaining) }

  /** Refinement can only add legs to the plan without it. It adds one exactly if the re-quote is usable (it did not
      fail, is not zero and in range) and the contested candidate beats it; hence, under a fallback whose rate never
      rises, none when over 99% was already placed. */
  lemma {:induction false} RefinementOnlyAdds(o: Order, cands: seq<Candidate>, i: nat, s: Scan)
    returns (j: nat, at: Scan)
    requires AllUsable(cands, o.amountIn) && Served(o, cands, i, s) && !s.refined
    ensures at == FillUnrefined(o, cands, i, s) && i <= j && Served(o, cands, j, at)
    ensures at.world == s.world && at.ref == s.ref && !at.refined
    ensures at.legs <= Fill(o, cands, i, s).legs
    ensures !Refines(cands, j, at) ==> Fill(o, cands, i, s) == at
    ensures Refines(cands, j, at) ==> Fill(o, cands, i, s) == Fill(o, cands, j, at)
    ensures Refines(cands, j, at) ==>
      (|Fill(o, cands, i, s).legs| > |at.legs| <==>
         Requote(o, at).out != 0 && Beats(cands[j], Ref(at.remaining, Requote(o, at).out)))
    ensures forall price: nat -> nat ::
      Refines(cands, j, at) && FallbackPrices(o, price) && RateNeverRises(price)
      && s.ref == Ref(RefSize(cands, o.amountIn), price(RefSize(cands, o.amountIn)))
      && at.remaining < o.amountIn / 100
      ==> Fill(o, cands, i, s).legs == at.legs
    decreases |cands| - i
  {
    j, at := i, s;
    if Going(cands, i, s) && !Contested(cands[i], s.ref) {
      j, at := RefinementOnlyAdds(o, cands, i + 1, Place(cands[i], s));
    } else if Going(cands, i, s) {
      FillExtends(o, cands, i, s);
      var r := Reconsider(o, cands[i], s);
      if !Contested(cands[i], r.ref) { FillExtends(o, cands, i + 1, Place(cands[i], r)); }
      forall price: nat -> nat |
        FallbackPrices(o, price) && RateNeverRises(price)
        && s.ref == Ref(RefSize(cands, o.amountIn), price(RefSize(cands, o.amountIn)))
        && s.remaining < o.amountIn / 100
        ensures Fill(o, cands, i, s).legs == at.legs
      {
        RefinementIsSafe(o, cands, i, s, price);
      }
    }
  }

  /** Whether the loop stopped on a contested candidate rather than for lack of candidates, input or legs. */
  ghost predicate CutOff(cands: seq<Candidate>, m: nat, s: Scan) {
    m < |cands| && 1 <= s.remaining && |s.legs| < 5
  }

  /** `ref` separates the candidates served, which beat it, from those turned away, which do not. */
  ghost predicate Separates(cands: seq<Candidate>, m: nat, s: Scan, ref: Ref)
    requires m <= |cands|
  {
    && (forall k :: 0 <= k < m ==> Beats(cands[k], ref))
    && (CutOff(cands, m, s) ==> forall k :: m <= k < |cands| ==> !Beats(cands[k], ref))
  }

  /** The fallback was asked about `size`: the first reference, or what remained once some candidates were served. */
  ghost predicate AskedSize(cands: seq<Candidate>, amountIn: u256, m: nat, size: nat)
    requires m <= |cands|
  {
    size == RefSize(cands, amountIn) || exists k :: 0 <= k <= m && size == Left(cands, k, amountIn)
  }

  lemma {:induction false} AfterRefinement(o: Order, cands: seq<Candidate>, i: nat, s: Scan) returns (m: nat)
    requires AllUsable(cands, o.amountIn) && Ranked(cands) && Served(o, cands, i, s) && s.refined
    requires forall k :: 0 <= k < i ==> !Contested(cands[k], s.ref)
    ensures var t := Fill(o, cands, i, s);
      i <= m && Served(o, cands, m, t) && Separates(cands, m, t, t.ref) && t.ref == s.ref
    decreases |cands| - i
  {
    m := i;
    if Going(cands, i, s) {
      if Contested(cands[i], s.ref) {
        forall k | i < k < |cands| ensures Contested(cands[k], s.ref) { ContestedBelow(cands[i], cands[k], s.ref); }
      } else {
        m := AfterRefinement(o, cands, i + 1, Place(cands[i], s));
      }
    }
  }

  /** The re-quote is adopted and the contested candidate beats it. */
  lemma Adopted(o: Order, cands: seq<Candidate>, i: nat, s: Scan, price: nat -> nat) returns (m: nat)
    requires AllUsable(cands, o.amountIn) && Ranked(cands) && Served(o, cands, i, s) && Refines(cands, i, s)
    requires FallbackPrices(o, price) && RateNeverRises(price)
    requires s.ref == Ref(RefSize(cands, o.amountIn), price(RefSize(cands, o.amountIn)))
    requires forall k :: 0 <= k < i ==> !Contested(cands[k], s.ref)
    requires !Contested(cands[i], Reconsider(o, cands[i], s).ref)
    ensures var t, ref := Fill(o, cands, i, s), Reconsider(o, cands[i], s).ref;
      && i <= m && Served(o, cands, m, t) && Separates(cands, m, t, ref)
      && ref == Ref(s.remaining, price(s.remaining))
  {
    var r := Reconsider(o, cands[i], s);
    RefinementIsSafe(o, cands, i, s, price);
    assert r.ref == Ref(s.remaining, FallbackQuote(o, s.world, s.remaining).out);
    forall k | 0 <= k < i ensures !Contested(cands[k], r.ref) { assert Usable(cands[k], o.amountIn); }
    m := AfterRefinement(o, cands, i + 1, Place(cands[i], r));
  }

  lemma AtRefinement(o: Order, cands: seq<Candidate>, i: nat, s: Scan, price: nat -> nat)
    returns (m: nat, ref: Ref)
    requires AllUsable(cands, o.amountIn) && Ranked(cands) && Served(o, cands, i, s) && Refines(cands, i, s)
    requires FallbackPrices(o, price) && RateNeverRises(price)
    requires s.ref == Ref(RefSize(cands, o.amountIn), price(RefSize(cands, o.amountIn)))
    requires forall k :: 0 <= k < i ==> !Contested(cands[k], s.ref)
    ensures var t := Fill(o, cands, i, s);
      && i <= m && Served(o, cands, m, t) && Separates(cands, m, t, ref)
      && 0 < ref.size && ref.out == price(ref.size) && AskedSize(cands, o.amountIn, m, ref.size)
  {
    m, ref := i, s.ref;
    if Contested(cands[i], Reconsider(o, cands[i], s).ref) {
      RefinementIsSafe(o, cands, i, s, price);
      forall k | i < k < |cands| ensures Contested(cands[k], s.ref) { ContestedBelow(cands[i], cands[k], s.ref); }
    } else {
      m := Adopted(o, cands, i, s, price);
      ref := Ref(s.remaining, price(s.remaining));
    }
  }

  lemma {:induction false} BeforeRefinement(o: Order, cands: seq<Candidate>, i: nat, s: Scan, price: nat -> nat)
    returns (m: nat, ref: Ref)
    requires AllUsable(cands, o.amountIn) && Ranked(cands) && Served(o, cands, i, s) && !s.refined
    requires FallbackPrices(o, price) && RateNeverRises(price)
    requires s.ref == Ref(RefSize(cands, o.amountIn), price(RefSize(cands, o.amountIn)))
    requires forall k :: 0 <= k < i ==> !Contested(cands[k], s.ref)
    ensures var t := Fill(o, cands, i, s);
      && i <= m && Served(o, cands, m, t) && Separates(cands, m, t, ref)
      && 0 < ref.size && ref.out == price(ref.size) && AskedSize(cands, o.amountIn, m, ref.size)
    decreases |cands| - i
  {
    m, ref := i, s.ref;
    if Going(cands, i, s) && !Contested(cands[i], s.ref) {
      m, ref := BeforeRefinement(o, cands, i + 1, Place(cands[i], s), price);
    } else if Going(cands, i, s) {
      m, ref := AtRefinement(o, cands, i, s, price);
    }
  }

  /** The plan serves the top `m` candidates, just those that beat `ref`, a genuine price of the fallback. */
  ghost predicate CutAt(o: Order, cands: seq<Candidate>, w: World, price: nat -> nat, m: nat, ref: Ref)
    requires AllUsable(cands, o.amountIn)
  {
    var t := Fill(o, cands, 0, Start(o, cands, w));
    && m <= |cands| && t.legs == PropLegs(cands, m, o.amountIn)
    && Separates(cands, m, t, ref)
    && 0 < ref.size && ref.out == price(ref.size) && AskedSize(cands, o.amountIn, m, ref.size)
  }

  /** Under a fallback whose unit rate never rises, the plan is a cutoff: there is one genuine fallback price that
      every candidate served beats, and that no candidate turned away beats. */
  lemma PlanIsACutoff(o: Order, cands: seq<Candidate>, w: World, price: nat -> nat)
    requires AllUsable(cands, o.amountIn) && Ranked(cands) && 0 < |cands| && 0 < o.amountIn
    requires FallbackPrices(o, price) && RateNeverRises(price)
    ensures exists m, ref :: CutAt(o, cands, w, price, m, ref)
  {
    var m, ref := BeforeRefinement(o, cands, 0, Start(o, cands, w), price);
    assert CutAt(o, cands, w, price, m, ref);
  }
}
