/** Discovering how much of an order each venue fills, and at what price. */
module Probe {
  import opened Arith
  import opened Chain
  import opened SplitPlanner
  import opened Waterfall

  /** `fill` and `out` are both zero when the venue yields no candidate. */
  datatype Probed = Probed(world: World, fill: u256, out: u256)

  /** A probe point: the venue's quote, with anything past 128 bits discarded. */
  function Point(o: Order, venue: Address, w: World, size: u256): (r: Priced)
    ensures r.out <= U128_MAX && (IsVenue(o.cfg, venue) ==> r == Quoted(o.env, w, venue, o.pair, size))
  {
    var p := TryQuote(o.env, o.cfg, w, venue, o.pair, size);
    if p.out > U128_MAX then p.(out := 0) else p
  }

  /** `_probeDownToFillable`: halve `size` until the quote falls below `ceiling`, at most `steps` times. */
  function ProbeDown(o: Order, venue: Address, w: World, size: u256, ceiling: u256, steps: nat): Probed
    decreases steps
  {
    if steps == 0 then Probed(w, 0, 0)
    else
      var half: u256 := size / 2;
      if half == 0 then Probed(w, 0, 0)
      else
        var p := Point(o, venue, w, half);
        if p.out == 0 then Probed(p.world, 0, 0)
        else if p.out < ceiling then Probed(p.world, half, p.out)
        else ProbeDown(o, venue, p.world, half, ceiling, steps - 1)
  }

  /** The two-point probe of a venue that does not state its capacity. */
  function BlindProbe(o: Order, venue: Address, w: World): Probed {
    var p := o.amountIn;
    var full := Point(o, venue, w, p);
    var half: u256 := p / 2;
    if half == 0 then Probed(full.world, p, full.out)
    else
      var hf := Point(o, venue, full.world, half);
      if full.out == 0 && hf.out == 0 then Probed(hf.world, 0, 0)
      else if full.out == 0 then Probed(hf.world, half, hf.out)
      else if hf.out == 0 then Probed(hf.world, p, full.out)
      else if full.out == hf.out then ProbeDown(o, venue, hf.world, half, full.out, MAX_SATURATION_STEPS)
      else if Saturated(full.out, hf.out) then Probed(hf.world, half, hf.out)
      else Probed(hf.world, p, full.out)
  }

  /** `_probeVenue`. */
  function ProbeVenue(o: Order, venue: Address, w: World): Probed {
    if !IsVenue(o.cfg, venue) then Probed(w, 0, 0)
    else if o.env.isFillable(w, venue) then
      match o.env.quoteFillable(w, venue, o.pair, o.amountIn)
      case None => Probed(w, 0, 0)
      case Some(f) => if f.fill > o.amountIn then Probed(f.world, 0, 0) else Probed(f.world, f.fill, f.out)
    else BlindProbe(o, venue, w)
  }

  datatype Pool = Pool(world: World, cands: seq<Candidate>)

  predicate Skipped(o: Order, venues: seq<Address>, i: nat)
    requires i < |venues|
  {
    venues[i] in venues[..i] || venues[i] == o.cfg.fallback
  }

  /** `_gatherCandidates` over the first `n` venues. */
  function Gathered(o: Order, venues: seq<Address>, n: nat, w: World): Pool
    requires n <= |venues|
  {
    if n == 0 then Pool(w, [])
    else
      var pool := Gathered(o, venues, n - 1, w);
      if Skipped(o, venues, n - 1) then pool
      else
        var p := ProbeVenue(o, venues[n - 1], pool.world);
        if p.fill == 0 || p.out == 0 || p.out > U128_MAX then Pool(p.world, pool.cands)
        else Pool(p.world, pool.cands + [Candidate(venues[n - 1], p.fill, p.out)])
  }

  // ----- Honest candidates -----

  /** Where the halving search stands: the world it has reached, and the size it will halve next. */
  datatype Halving = Halving(world: World, size: u256)

  /** The search after `k` answers, from `w` and `size`. */
  function Halved(o: Order, venue: Address, w: World, size: u256, k: nat): Halving
    decreases k
  {
    if k == 0 then Halving(w, size)
    else Halved(o, venue, Point(o, venue, w, size / 2).world, size / 2, k - 1)
  }

  /** The venue's next answer in the search. */
  function NextHalf(o: Order, venue: Address, h: Halving): Priced { Point(o, venue, h.world, h.size / 2) }

  /** `fill`/`out` is the venue's own answer after `k` others, the first of them all to fall below the ceiling. */
  ghost predicate FirstBelow(o: Order, venue: Address, w: World, size: u256, ceiling: u256, k: nat, fill: u256,
                             out: u256)
  {
    var h := Halved(o, venue, w, size, k);
    && fill == h.size / 2 && out == NextHalf(o, venue, h).out && 0 < fill && 0 < out < ceiling
    && forall j: nat :: j < k ==> NextHalf(o, venue, Halved(o, venue, w, size, j)).out >= ceiling
  }

  lemma FirstBelowLater(o: Order, venue: Address, w: World, size: u256, ceiling: u256, k: nat, fill: u256, out: u256)
    requires NextHalf(o, venue, Halving(w, size)).out >= ceiling
    requires FirstBelow(o, venue, NextHalf(o, venue, Halving(w, size)).world, size / 2, ceiling, k, fill, out)
    ensures FirstBelow(o, venue, w, size, ceiling, k + 1, fill, out)
  {
    var next := NextHalf(o, venue, Halving(w, size)).world;
    forall j: nat | j < k + 1
      ensures NextHalf(o, venue, Halved(o, venue, w, size, j)).out >= ceiling
    {
      if j > 0 { assert Halved(o, venue, w, size, j) == Halved(o, venue, next, size / 2, j - 1); }
    }
  }

  /** Whatever the search returns is the first answer below the ceiling that the venue gave in it. */
  lemma {:induction false} ProbeDownHonest(o: Order, venue: Address, w: World, size: u256, ceiling: u256, steps: nat)
    returns (k: nat)
    ensures var p := ProbeDown(o, venue, w, size, ceiling, steps);
      p.fill != 0 ==>
        k < steps && p.fill <= size / 2 && FirstBelow(o, venue, w, size, ceiling, k, p.fill, p.out)
    decreases steps
  {
    k := 0;
    if steps > 0 && size / 2 > 0 {
      var p := Point(o, venue, w, size / 2);
      var r := ProbeDown(o, venue, w, size, ceiling, steps);
      if p.out != 0 && !(p.out < ceiling) {
        var j := ProbeDownHonest(o, venue, p.world, size / 2, ceiling, steps - 1);
        if r.fill != 0 {
          FirstBelowLater(o, venue, w, size, ceiling, j, r.fill, r.out);
          k := j + 1;
        }
      }
    }
  }

  /** `fill`/`out` is an answer the venue gives in a two-point probe begun in `w`: to the whole order asked in `w`,
      to half of it asked next, or, where those two agree, in the halving search that follows. */
  ghost predicate BlindAnswer(o: Order, venue: Address, w: World, fill: u256, out: u256) {
    var half: u256 := o.amountIn / 2;
    var full := Point(o, venue, w, o.amountIn);
    var hf := Point(o, venue, full.world, half);
    || (fill == o.amountIn && out == full.out)
    || (fill == half && out == hf.out && out != full.out)
    || (full.out == hf.out && exists k: nat ::
          k < MAX_SATURATION_STEPS && FirstBelow(o, venue, hf.world, half, full.out, k, fill, out))
  }

  /** The fill of a blind probe is a size the venue was asked about in it, its output the answer it then gave. */
  lemma BlindProbeHonest(o: Order, venue: Address, w: World)
    requires 0 < o.amountIn
    ensures var p := BlindProbe(o, venue, w);
      p.fill <= o.amountIn && (p.fill != 0 && p.out != 0 ==> BlindAnswer(o, venue, w, p.fill, p.out))
  {
    var full := Point(o, venue, w, o.amountIn);
    if o.amountIn / 2 > 0 {
      var hf := Point(o, venue, full.world, o.amountIn / 2);
      if full.out == hf.out && full.out != 0 {
        var k := ProbeDownHonest(o, venue, hf.world, o.amountIn / 2, full.out, MAX_SATURATION_STEPS);
      }
    }
  }

  /** Where a candidate's numbers come from: its own venue's answer, in the probe begun in `w`, for exactly its fill. */
  ghost predicate Answered(o: Order, c: Candidate, w: World) {
    if o.env.isFillable(w, c.venue) then
      var f := o.env.quoteFillable(w, c.venue, o.pair, o.amountIn);
      f.Some? && f.value.fill == c.fill && f.value.out == c.out
    else BlindAnswer(o, c.venue, w, c.fill, c.out)
  }

  /** `c` is what the `k`-th venue answered, in the world left by gathering from the venues before it. */
  ghost predicate AnsweredAt(o: Order, venues: seq<Address>, w: World, k: nat, c: Candidate) {
    && k < |venues| && c.venue == venues[k] && !Skipped(o, venues, k)
    && Answered(o, c, Gathered(o, venues, k, w).world)
  }

  /** A candidate speaks for a listed venue, not the fallback, and quotes it faithfully. */
  ghost predicate Honest(o: Order, venues: seq<Address>, n: nat, w: World, c: Candidate) {
    && c.venue != o.cfg.fallback && IsVenue(o.cfg, c.venue)
    && exists k: nat :: k < n && AnsweredAt(o, venues, w, k, c)
  }

  /** A probe that yields a candidate yields a usable one, as its venue answered. */
  lemma ProbeHonest(o: Order, venue: Address, w: World)
    requires 0 < o.amountIn
    ensures var p := ProbeVenue(o, venue, w);
      p.fill != 0 && p.out != 0 && p.out <= U128_MAX ==>
        var c := Candidate(venue, p.fill, p.out);
        Usable(c, o.amountIn) && Answered(o, c, w) && IsVenue(o.cfg, venue)
  {
    BlindProbeHonest(o, venue, w);
  }

  lemma HonestStays(o: Order, venues: seq<Address>, n: nat, w: World, c: Candidate)
    requires n <= |venues| && Honest(o, venues, n, w, c)
    ensures Honest(o, venues, n + 1, w, c) && c.venue in venues[..n]
  {
    var k: nat :| k < n && AnsweredAt(o, venues, w, k, c);
    assert venues[..n][k] == c.venue;
  }

  /** Every candidate is usable and honest, and no two speak for the same venue. */
  lemma {:induction false} GatheredHonest(o: Order, venues: seq<Address>, n: nat, w: World)
    requires n <= |venues| && 0 < o.amountIn
    ensures var cands := Gathered(o, venues, n, w).cands;
      && |cands| <= n && AllUsable(cands, o.amountIn)
      && (forall i :: 0 <= i < |cands| ==> Honest(o, venues, n, w, cands[i]))
      && (forall i, j :: 0 <= i < j < |cands| ==> cands[i].venue != cands[j].venue)
  {
    if n > 0 {
      GatheredHonest(o, venues, n - 1, w);
      var pool := Gathered(o, venues, n - 1, w);
      forall i | 0 <= i < |pool.cands|
        ensures Honest(o, venues, n, w, pool.cands[i]) && pool.cands[i].venue in venues[..n - 1]
      {
        HonestStays(o, venues, n - 1, w, pool.cands[i]);
      }
      ProbeHonest(o, venues[n - 1], pool.world);
      var p := ProbeVenue(o, venues[n - 1], pool.world);
      if !Skipped(o, venues, n - 1) && p.fill != 0 && p.out != 0 && p.out <= U128_MAX {
        assert AnsweredAt(o, venues, w, n - 1, Candidate(venues[n - 1], p.fill, p.out));
      }
    }
  }

  // ----- Exactly which candidates -----

  /** What the venue's own answers make of it when it does not state its capacity: the whole order where the order
      pays at least 99% in proportion to its half (or has no half), else the half, and where both pay the same, the
      first size of the halving search to pay less. */
  ghost predicate BlindOffer(o: Order, venue: Address, w: World, fill: u256, out: u256) {
    var half: u256 := o.amountIn / 2;
    var full := Quoted(o.env, w, venue, o.pair, o.amountIn);
    var hf := Quoted(o.env, full.world, venue, o.pair, half);
    if half == 0 || (full.out != hf.out && 100 * full.out >= 198 * hf.out) then fill == o.amountIn && out == full.out
    else if full.out != hf.out then fill == half && out == hf.out
    else exists k: nat :: k < 8 && FirstBelow(o, venue, hf.world, half, full.out, k, fill, out)
  }

  /** The venue, first asked in `w`, offers to fill `fill` for `out`: in its own words if it states its capacity. */
  ghost predicate Offers(o: Order, venue: Address, w: World, fill: u256, out: u256) {
    && 1 <= fill <= o.amountIn && 1 <= out <= U128_MAX
    && if o.env.isFillable(w, venue) then
         var f := o.env.quoteFillable(w, venue, o.pair, o.amountIn);
         f.Some? && f.value.fill == fill && f.value.out == out
       else BlindOffer(o, venue, w, fill, out)
  }

  lemma {:induction false} HalvedShrinks(o: Order, venue: Address, w: World, size: u256, k: nat)
    ensures Halved(o, venue, w, size, k).size <= size
    decreases k
  {
    if k > 0 { HalvedShrinks(o, venue, Point(o, venue, w, size / 2).world, size / 2, k - 1); }
  }

  lemma FirstBelowSooner(o: Order, venue: Address, w: World, size: u256, ceiling: u256, k: nat, fill: u256, out: u256)
    requires FirstBelow(o, venue, w, size, ceiling, k + 1, fill, out)
    ensures NextHalf(o, venue, Halving(w, size)).out >= ceiling && size / 2 > 0
    ensures FirstBelow(o, venue, NextHalf(o, venue, Halving(w, size)).world, size / 2, ceiling, k, fill, out)
  {
    var next := NextHalf(o, venue, Halving(w, size)).world;
    assert Halved(o, venue, w, size, 0) == Halving(w, size);
    assert Halved(o, venue, w, size, k + 1) == Halved(o, venue, next, size / 2, k);
    HalvedShrinks(o, venue, next, size / 2, k);
    forall j: nat | j < k
      ensures NextHalf(o, venue, Halved(o, venue, next, size / 2, j)).out >= ceiling
    {
      assert Halved(o, venue, w, size, j + 1) == Halved(o, venue, next, size / 2, j);
    }
  }

  /** The halving search finds the first answer below the ceiling, if one comes within its step budget. */
  lemma {:induction false} HalvingFindsFirst(o: Order, venue: Address, w: World, size: u256, ceiling: u256, steps: nat,
                                             k: nat, fill: u256, out: u256)
    requires k < steps && FirstBelow(o, venue, w, size, ceiling, k, fill, out)
    ensures ProbeDown(o, venue, w, size, ceiling, steps).fill == fill
    ensures ProbeDown(o, venue, w, size, ceiling, steps).out == out
    decreases k
  {
    if k > 0 {
      FirstBelowSooner(o, venue, w, size, ceiling, k - 1, fill, out);
      HalvingFindsFirst(o, venue, NextHalf(o, venue, Halving(w, size)).world, size / 2, ceiling, steps - 1, k - 1, fill,
                        out);
    }
  }

  /** What the two-point probe returns is what the answers make of the venue. */
  lemma BlindProbeExactly(o: Order, venue: Address, w: World, fill: u256, out: u256)
    requires IsVenue(o.cfg, venue) && 1 <= fill <= o.amountIn && 1 <= out <= U128_MAX
    ensures (BlindProbe(o, venue, w).fill == fill && BlindProbe(o, venue, w).out == out) <==>
      BlindOffer(o, venue, w, fill, out)
  {
    var full, half: u256 := Point(o, venue, w, o.amountIn), o.amountIn / 2;
    if 0 < half {
      var hf := Point(o, venue, full.world, half);
      BlindProbeCases(o, venue, w);
      if full.out == hf.out {
        var k := ProbeDownHonest(o, venue, hf.world, half, full.out, MAX_SATURATION_STEPS);
        if BlindOffer(o, venue, w, fill, out) {
          var j: nat :| j < 8 && FirstBelow(o, venue, hf.world, half, full.out, j, fill, out);
          HalvingFindsFirst(o, venue, hf.world, half, full.out, MAX_SATURATION_STEPS, j, fill, out);
        }
      }
    }
  }

  /** What the probe yields. */
  predicate Yields(p: Probed, fill: u256, out: u256) {
    p.fill == fill && p.out == out && fill != 0 && out != 0 && out <= U128_MAX
  }

  /** A listed venue's probe yields exactly what the venue offers. */
  lemma ProbeExactly(o: Order, venue: Address, w: World, fill: u256, out: u256)
    requires IsVenue(o.cfg, venue) && 0 < o.amountIn
    ensures Yields(ProbeVenue(o, venue, w), fill, out) <==> Offers(o, venue, w, fill, out)
  {
    if 1 <= fill <= o.amountIn && 1 <= out <= U128_MAX { BlindProbeExactly(o, venue, w, fill, out); }
    if Yields(ProbeVenue(o, venue, w), fill, out) { ProbeHonest(o, venue, w); }
  }

  /** Nobody is overlooked: a venue whose turn yields a usable probe has its candidate. */
  lemma {:induction false} GatheredMissesNone(o: Order, venues: seq<Address>, n: nat, w: World, k: nat)
    requires k < n <= |venues| && !Skipped(o, venues, k)
    ensures var p := ProbeVenue(o, venues[k], Gathered(o, venues, k, w).world);
      Yields(p, p.fill, p.out) ==> Candidate(venues[k], p.fill, p.out) in Gathered(o, venues, n, w).cands
  {
    if k < n - 1 { GatheredMissesNone(o, venues, n - 1, w, k); }
  }

  /** A venue has one turn only: the first place it is listed at. */
  lemma OneTurnEach(o: Order, venues: seq<Address>, i: nat, j: nat)
    requires i < |venues| && j < |venues| && venues[i] == venues[j]
    ensures !Skipped(o, venues, i) && !Skipped(o, venues, j) ==> i == j
  {
    assert i < j ==> venues[i] in venues[..j];
    assert j < i ==> venues[j] in venues[..i];
  }

  /** Nobody is made up: every candidate of a venue comes from its turn. */
  lemma {:induction false} GatheredAddsNone(o: Order, venues: seq<Address>, n: nat, w: World, k: nat, c: Candidate)
    requires n <= |venues| && c in Gathered(o, venues, n, w).cands
    requires k < |venues| && !Skipped(o, venues, k) && c.venue == venues[k]
    ensures Yields(ProbeVenue(o, venues[k], Gathered(o, venues, k, w).world), c.fill, c.out)
  {
    var pool := Gathered(o, venues, n - 1, w);
    if c in pool.cands {
      GatheredAddsNone(o, venues, n - 1, w, k, c);
    } else {
      OneTurnEach(o, venues, k, n - 1);
    }
  }

  /** A venue due a turn becomes a candidate with exactly what it offers in it. */
  lemma GatheredExactly(o: Order, venues: seq<Address>, n: nat, w: World, k: nat, fill: u256, out: u256)
    requires k < n <= |venues| && !Skipped(o, venues, k) && IsVenue(o.cfg, venues[k]) && 0 < o.amountIn
    ensures Candidate(venues[k], fill, out) in Gathered(o, venues, n, w).cands <==>
      Offers(o, venues[k], Gathered(o, venues, k, w).world, fill, out)
  {
    var c := Candidate(venues[k], fill, out);
    ProbeExactly(o, venues[k], Gathered(o, venues, k, w).world, fill, out);
    GatheredMissesNone(o, venues, n, w, k);
    if c in Gathered(o, venues, n, w).cands { GatheredAddsNone(o, venues, n, w, k, c); }
  }

  /** With no venue listed twice the duplicate scan never fires. */
  lemma NoDuplicatesNoSkips(o: Order, venues: seq<Address>, i: nat)
    requires i < |venues| && forall j, k :: 0 <= j < k < |venues| ==> venues[j] != venues[k]
    ensures Skipped(o, venues, i) <==> venues[i] == o.cfg.fallback
  {}

  // ----- Quiet quotes -----

  lemma {:induction false} ProbeDownIsQuiet(o: Order, venue: Address, w: World, size: u256, ceiling: u256, steps: nat,
                                            token: Address, who: Address)
    requires Quiet(o.env, token, who)
    ensures Bal(ProbeDown(o, venue, w, size, ceiling, steps).world, token, who) >= Bal(w, token, who)
    decreases steps
  {
    if steps > 0 && size / 2 > 0 {
      var p := Point(o, venue, w, size / 2);
      ProbeDownIsQuiet(o, venue, p.world, size / 2, ceiling, steps - 1, token, who);
    }
  }

  lemma ProbeIsQuiet(o: Order, venue: Address, w: World, token: Address, who: Address)
    requires Quiet(o.env, token, who)
    ensures Bal(ProbeVenue(o, venue, w).world, token, who) >= Bal(w, token, who)
  {
    var full, half: u256 := Point(o, venue, w, o.amountIn), o.amountIn / 2;
    var hf := Point(o, venue, full.world, half);
    ProbeDownIsQuiet(o, venue, hf.world, half, full.out, MAX_SATURATION_STEPS, token, who);
  }

  /** Probing every venue costs nobody what no quote costs them. */
  lemma {:induction false} GatheringIsQuiet(o: Order, venues: seq<Address>, n: nat, w: World, token: Address,
                                            who: Address)
    requires n <= |venues| && Quiet(o.env, token, who)
    ensures Bal(Gathered(o, venues, n, w).world, token, who) >= Bal(w, token, who)
  {
    if n > 0 {
      GatheringIsQuiet(o, venues, n - 1, w, token, who);
      ProbeIsQuiet(o, venues[n - 1], Gathered(o, venues, n - 1, w).world, token, who);
    }
  }

  // ----- A loss while probing stays -----

  lemma {:induction false} ProbeDownKeepsLoss(o: Order, venue: Address, w: World, size: u256, ceiling: u256, steps: nat,
                                              token: Address, who: Address, snap: nat)
    requires Lasting(o.env, token, who, snap) && Short(w, token, who, snap)
    ensures Short(ProbeDown(o, venue, w, size, ceiling, steps).world, token, who, snap)
    decreases steps
  {
    if steps > 0 && size / 2 > 0 {
      var p := Point(o, venue, w, size / 2);
      ProbeDownKeepsLoss(o, venue, p.world, size / 2, ceiling, steps - 1, token, who, snap);
    }
  }

  /** The world a venue leaves when it first answers in its probe. */
  function FirstAnswered(o: Order, venue: Address, w: World): World {
    if o.env.isFillable(w, venue) then
      var f := o.env.quoteFillable(w, venue, o.pair, o.amountIn);
      if f.Some? then f.value.world else w
    else Quoted(o.env, w, venue, o.pair, o.amountIn).world
  }

  /** What was lost before a listed venue's probe, or by its first answer, is lost after it. */
  lemma ProbeKeepsLoss(o: Order, venue: Address, w: World, token: Address, who: Address, snap: nat)
    requires Lasting(o.env, token, who, snap) && IsVenue(o.cfg, venue)
    requires Short(w, token, who, snap) || Short(FirstAnswered(o, venue, w), token, who, snap)
    ensures Short(ProbeVenue(o, venue, w).world, token, who, snap)
  {
    if !o.env.isFillable(w, venue) {
      var full, half: u256 := Point(o, venue, w, o.amountIn), o.amountIn / 2;
      var hf := Point(o, venue, full.world, half);
      ProbeDownKeepsLoss(o, venue, hf.world, half, full.out, MAX_SATURATION_STEPS, token, who, snap);
    }
  }

  /** A loss by the `k`-th venue's first answer is there when all have been probed. */
  lemma {:induction false} GatheringKeepsLoss(o: Order, venues: seq<Address>, n: nat, w: World, k: nat, token: Address,
                                              who: Address, snap: nat)
    requires k < n <= |venues| && Lasting(o.env, token, who, snap) && !Skipped(o, venues, k)
    requires forall i :: 0 <= i < |venues| ==> IsVenue(o.cfg, venues[i])
    requires Short(FirstAnswered(o, venues[k], Gathered(o, venues, k, w).world), token, who, snap)
    ensures Short(Gathered(o, venues, n, w).world, token, who, snap)
  {
    if k < n - 1 { GatheringKeepsLoss(o, venues, n - 1, w, k, token, who, snap); }
    if !Skipped(o, venues, n - 1) {
      ProbeKeepsLoss(o, venues[n - 1], Gathered(o, venues, n - 1, w).world, token, who, snap);
    }
  }

  // ----- Capacity -----

  /** A venue whose quotes do not depend on the world: `q(size)` for every size, within 128 bits. */
  ghost predicate Quotes(o: Order, venue: Address, q: nat -> nat) {
    IsVenue(o.cfg, venue) && forall w, size: u256 :: Quoted(o.env, w, venue, o.pair, size).out == q(size)
  }

  ghost predicate InProportion(q: nat -> nat, a: nat, b: nat) {
    1 <= a <= b ==> q(a) <= q(b) && q(b) * a <= q(a) * b
  }

  /** Output grows with input, never faster than in proportion. */
  ghost predicate Concave(q: nat -> nat) {
    forall a, b :: InProportion(q, a, b)
  }

  /** Whatever exceeds `capacity` earns nothing more. */
  ghost predicate FlatFrom(q: nat -> nat, capacity: nat) {
    forall a :: capacity <= a ==> q(a) == q(capacity)
  }

  /** Halving a flat quote only ever stops strictly below capacity. */
  lemma {:induction false} ProbeDownUnderCapacity(o: Order, venue: Address, w: World, size: u256, ceiling: u256,
                                                  steps: nat, q: nat -> nat, capacity: nat)
    requires Quotes(o, venue, q) && FlatFrom(q, capacity) && ceiling == q(capacity)
    ensures ProbeDown(o, venue, w, size, ceiling, steps).fill != 0 ==>
      ProbeDown(o, venue, w, size, ceiling, steps).fill < capacity
    decreases steps
  {
    if steps > 0 && size / 2 > 0 {
      var p := Point(o, venue, w, size / 2);
      assert p.out == q(size / 2);
      if p.out != 0 && !(p.out < ceiling) {
        ProbeDownUnderCapacity(o, venue, p.world, size / 2, ceiling, steps - 1, q, capacity);
      }
    }
  }

  /** With two probe points: equal quotes are resolved by halving; else the whole order is offered only where the
      half point is dead or the full point is not saturated against it. */
  lemma BlindProbeCases(o: Order, venue: Address, w: World)
    requires 1 < o.amountIn
    ensures var half: u256 := o.amountIn / 2;
      var full := Point(o, venue, w, o.amountIn);
      var hf := Point(o, venue, full.world, half);
      var p := BlindProbe(o, venue, w);
      if full.out == hf.out then
        p.fill == 0 || p == ProbeDown(o, venue, hf.world, half, full.out, MAX_SATURATION_STEPS)
      else if full.out == 0 || (hf.out != 0 && Saturated(full.out, hf.out)) then p.fill == half
      else p.fill == o.amountIn && p.out == full.out
  {}

  /** Two probe points beyond capacity that agree: halving resolves them to a size under it, or to nothing. */
  lemma AgreeingPoints(o: Order, venue: Address, w: World, q: nat -> nat, capacity: nat)
    requires 1 < o.amountIn && capacity < o.amountIn && Quotes(o, venue, q) && FlatFrom(q, capacity)
    requires q(o.amountIn) == q(o.amountIn / 2)
    ensures BlindProbe(o, venue, w).fill != 0 ==> BlindProbe(o, venue, w).fill < capacity
  {
    var half: u256 := o.amountIn / 2;
    var full := Point(o, venue, w, o.amountIn);
    var hf := Point(o, venue, full.world, half);
    assert full.out == q(o.amountIn) == q(capacity) && hf.out == q(half);
    BlindProbeCases(o, venue, w);
    ProbeDownUnderCapacity(o, venue, hf.world, half, full.out, MAX_SATURATION_STEPS, q, capacity);
  }

  /** Two that differ: the order itself is offered unless it reads as saturated. */
  lemma DifferingPoints(o: Order, venue: Address, w: World, q: nat -> nat, capacity: nat)
    requires 1 < o.amountIn && 0 < capacity < o.amountIn
    requires Quotes(o, venue, q) && Concave(q) && FlatFrom(q, capacity)
    requires q(o.amountIn) != q(o.amountIn / 2)
    ensures var p := BlindProbe(o, venue, w);
      if Saturated(q(o.amountIn), q(o.amountIn / 2)) then p.fill < capacity
      else p.fill == o.amountIn && p.out != 0
  {
    var half: u256 := o.amountIn / 2;
    var full := Point(o, venue, w, o.amountIn);
    assert full.out == q(o.amountIn) && Point(o, venue, full.world, half).out == q(half);
    BlindProbeCases(o, venue, w);
    TwoDistinctPoints(q, capacity, o.amountIn, half);
  }

  /** When the probe offers a venue more than its capacity: exactly if the order exceeds it and the two probe points
      differ, yet by too little to count as saturated. */
  lemma OverfillsExactly(o: Order, venue: Address, w: World, q: nat -> nat, capacity: nat)
    requires 0 < o.amountIn && 0 < capacity
    requires Quotes(o, venue, q) && Concave(q) && FlatFrom(q, capacity)
    ensures var p, full, half := BlindProbe(o, venue, w), q(o.amountIn), q(o.amountIn / 2);
      p.fill > capacity && p.out != 0 <==> capacity < o.amountIn && half != full && !Saturated(full, half)
  {
    if o.amountIn <= capacity {
      BlindProbeHonest(o, venue, w);
    } else if q(o.amountIn) == q(o.amountIn / 2) {
      AgreeingPoints(o, venue, w, q, capacity);
    } else {
      DifferingPoints(o, venue, w, q, capacity);
    }
  }

  /** It happens: a venue that pays one for one up to 100, asked about 101, is offered all of it. */
  lemma SlightOverfill(w: World)
    ensures Quotes(Capped(), 3, CappedQuote) && Concave(CappedQuote) && FlatFrom(CappedQuote, 100)
    ensures BlindProbe(Capped(), 3, w) == Probed(w, 101, 100)
  {
    forall a: nat, b: nat ensures InProportion(CappedQuote, a, b) {
      if 1 <= a <= b { MulMono(a, b, CappedQuote(a)); }
    }
  }

  function CappedQuote(size: nat): nat { if size < 100 then size else 100 }

  /** An order of 101 to a chain whose venues all quote that way, with venue 3 listed. */
  function Capped(): Order {
    Order(Env((_, _, _, _) => false, (w, _, _, size: u256) => Some(Priced(w, CappedQuote(size))), (_, _) => false,
              (_, _, _, _) => None, (_, _) => None, (_, _) => None, (_, _, _) => false),
          Config(1, 2, [3], 3000, map[]), Pair(10, 11), 101)
  }

  /** The excess is never more than about 1%: an order past that is within reach of the saturation test. */
  lemma BlindProbeRespectsCapacity(o: Order, venue: Address, w: World, q: nat -> nat, capacity: nat)
    requires 0 < o.amountIn && 0 < capacity
    requires Quotes(o, venue, q) && Concave(q) && FlatFrom(q, capacity)
    ensures var p := BlindProbe(o, venue, w);
      p.fill > capacity && p.out != 0 ==> 99 * (p.fill - 1) <= 100 * capacity
  {
    OverfillsExactly(o, venue, w, q, capacity);
    BlindProbeHonest(o, venue, w);
    var p := BlindProbe(o, venue, w);
    if p.fill > capacity && p.out != 0 {
      TwoDistinctPoints(q, capacity, o.amountIn, o.amountIn / 2);
    }
  }

  lemma TwoDistinctPoints(q: nat -> nat, capacity: nat, p: nat, half: nat)
    requires Concave(q) && FlatFrom(q, capacity) && 0 < capacity <= p && 0 < half == p / 2 && q(p) != q(half)
    ensures half < capacity && 0 < q(half) && 0 < q(p)
    ensures !Saturated(q(p), q(half)) ==> 99 * (p - 1) <= 100 * capacity
  {
    assert InProportion(q, half, p) && q(p) == q(capacity);
    assert InProportion(q, half, capacity);
    if q(half) == 0 { MulMono(1, half, q(capacity)); }
    if !Saturated(q(p), q(half)) { CloseToCapacity(q(capacity), q(half), half, capacity); }
  }

  lemma CloseToCapacity(outCap: nat, outHalf: nat, half: nat, capacity: nat)
    requires 0 < outHalf && !Saturated(outCap, outHalf)
    requires outCap * half <= outHalf * capacity
    ensures 198 * half <= 100 * capacity
  {
    assert outCap * 10_000 >= outHalf * 19_800;
    MulMono(outHalf * 19_800, outCap * 10_000, half);
    calc {
      (198 * half) * outHalf;
      (outHalf * 198) * half;
    <= { MulMono(outHalf * 198, outCap * 100, half); }
      (outCap * 100) * half;
      100 * (outCap * half);
    <=
      100 * (outHalf * capacity);
      (100 * capacity) * outHalf;
    }
    MulCancel(198 * half, 100 * capacity, outHalf);
  }
}
