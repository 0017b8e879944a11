/** The router itself: storage, the steps of a swap in place on the chain, and what each leaves behind. */
module Router {
  import opened Arith
  import opened Chain
  import opened SplitPlanner
  import opened Waterfall
  import opened Probe
  import opened Legs
  import opened CoreSwap
  import opened Fees
  import opened Split
  import opened Whitelist
  import opened Selection

  const USDC: Address := 0xA0b8_6991_c621_8b36_c1d1_9D4a_2e9E_b0cE_3606_eB48
  const USDT: Address := 0xdAC1_7F95_8D2e_e523_a220_6206_9945_97C1_3D83_1ec7

  type Nonzero = a: Address | a != ZERO witness WETH

  class PropAMMRouter {
    const self: Address
    const venues: AddressSet
    /** Never the zero address: that would be mistaken for a venue nobody chose. */
    var fallbackSwapRouter: Nonzero
    var fallbackFee: nat
    var pairFee: Tiers
    /** The chain the router runs on, and the `Swapped` events it has emitted. */
    var world: World
    var log: seq<Swapped>

    ghost predicate Valid()
      reads `fallbackFee, `pairFee, venues
    {
      venues.Valid() && ValidTiers(pairFee, fallbackFee)
    }

    /** The storage that swaps read. */
    function Cfg(): Config
      reads `fallbackSwapRouter, `fallbackFee, `pairFee, venues
    {
      Config(self, fallbackSwapRouter, venues.values, fallbackFee, pairFee)
    }

    // ----- Storage -----

    /** A router past `initialize`'s checks, with the default tiers seeded. */
    constructor (self: Address, fallback: Nonzero, world: World)
      ensures Valid() && fresh(venues) && venues.values == []
      ensures this.self == self && fallbackSwapRouter == fallback && fallbackFee == 3000
      ensures this.world == world && log == []
      ensures ResolvedFee(Cfg(), USDC, USDT) == 100 && ResolvedFee(Cfg(), WETH, USDT) == 500
      ensures ResolvedFee(Cfg(), WETH, USDC) == 500
    {
      this.self := self;
      venues := new AddressSet();
      fallbackSwapRouter, fallbackFee := fallback, 3000;
      pairFee := map[PairKey(USDT, USDC) := 100, PairKey(USDT, WETH) := 500, PairKey(USDC, WETH) := 500];
      this.world, log := world, [];
    }

    /** `initialize`: a zero address reverts. */
    static method Initialize(self: Address, fallback: Address, quoter: Address, authority: Address, world: World)
      returns (r: Result<PropAMMRouter>)
      ensures r.Err? <==> fallback == ZERO || quoter == ZERO || authority == ZERO
      ensures r.Err? ==> r.error == ZeroAddress
      ensures r.Ok? ==> fresh(r.value) && r.value.Valid() && r.value.fallbackSwapRouter == fallback
      ensures r.Ok? ==> r.value.fallbackFee == 3000 && r.value.venues.values == []
    {
      if fallback == ZERO || quoter == ZERO || authority == ZERO { return Err(ZeroAddress); }
      var router := new PropAMMRouter(self, fallback, world);
      return Ok(router);
    }

    method SetFallbackSwapRouter(newRouter: Address) returns (r: Result<()>)
      requires Valid()
      modifies `fallbackSwapRouter
      ensures Valid()
      ensures r.Ok? <==> newRouter != ZERO
      ensures fallbackSwapRouter == if r.Ok? then newRouter else old(fallbackSwapRouter)
    {
      if newRouter == ZERO { return Err(ZeroAddress); }
      fallbackSwapRouter := newRouter;
      return Ok(());
    }

    method SetFallbackFee(fee: nat) returns (r: Result<()>)
      requires Valid()
      modifies `fallbackFee
      ensures Valid()
      ensures r.Ok? <==> 0 < fee < MAX_FEE
      ensures fallbackFee == if r.Ok? then fee else old(fallbackFee)
    {
      if fee == 0 || fee >= MAX_FEE { return Err(InvalidFallbackFee); }
      fallbackFee := fee;
      return Ok(());
    }

    method SetPairFee(a: Address, b: Address, fee: nat) returns (r: Result<()>)
      requires Valid()
      modifies `pairFee
      ensures Valid()
      ensures fee < MAX_FEE ==> ResolvedFee(Cfg(), a, b) == if fee == 0 then fallbackFee else fee
      ensures match SetTier(old(pairFee), a, b, fee)
              case Ok(t) => r == Ok(()) && pairFee == t
              case Err(e) => r == Err(e) && pairFee == old(pairFee)
    {
      if fee >= MAX_FEE { return Err(InvalidFallbackFee); }
      pairFee := pairFee[PairKey(a, b) := fee];
      return Ok(());
    }

    /** `setPairFees`: one bad entry undoes the batch. */
    method SetPairFees(a: seq<Address>, b: seq<Address>, fees: seq<nat>) returns (r: Result<()>)
      requires Valid()
      modifies `pairFee
      ensures Valid()
      ensures r == Err(ArrayLengthMismatch) <==> !(|a| == |b| == |fees|)
      ensures r.Err? ==> pairFee == old(pairFee)
      ensures |a| == |b| == |fees| ==>
        match SetTiers(old(pairFee), seq(|fees|, i requires 0 <= i < |fees| => TierUpdate(a[i], b[i], fees[i])))
        case Ok(t) => r == Ok(()) && pairFee == t
        case Err(e) => r == Err(e)
    {
      if |a| != |b| || |b| != |fees| { return Err(ArrayLengthMismatch); }
      ghost var updates := seq(|fees|, i requires 0 <= i < |fees| => TierUpdate(a[i], b[i], fees[i]));
      var before := pairFee;
      var i := 0;
      while i < |fees|
        invariant 0 <= i <= |fees| && Valid() && before == old(pairFee)
        invariant SetTiers(before, updates[..i]) == Ok(pairFee)
      {
        assert updates[..i + 1][..i] == updates[..i];
        var one := SetPairFee(a[i], b[i], fees[i]);
        if one.Err? {
          FailedBatch(before, updates, i + 1);
          pairFee := before;
          return one;
        }
        i := i + 1;
      }
      assert updates[..i] == updates;
      return Ok(());
    }

    lemma {:induction false} FailedBatch(t: Tiers, updates: seq<TierUpdate>, n: nat)
      requires n <= |updates| && SetTiers(t, updates[..n]).Err?
      ensures SetTiers(t, updates) == SetTiers(t, updates[..n])
      decreases |updates| - n
    {
      if n < |updates| {
        assert updates[..n + 1][..n] == updates[..n];
        FailedBatch(t, updates, n + 1);
      } else {
        assert updates[..n] == updates;
      }
    }

    method AddVenue(venue: Address) returns (r: Result<()>)
      requires Valid()
      modifies venues
      ensures Valid()
      ensures venues.values == Applied(old(venues.values), Add(venue))
      ensures r.Ok? <==> venue != ZERO && venue !in old(venues.values)
    {
      if venue == ZERO { return Err(ZeroAddress); }
      var added := venues.Insert(venue);
      return if added then Ok(()) else Err(VenueAlreadyWhitelisted);
    }

    method RemoveVenue(venue: Address) returns (r: Result<()>)
      requires Valid()
      modifies venues
      ensures Valid()
      ensures venues.values == Applied(old(venues.values), Remove(venue))
      ensures r.Ok? <==> venue in old(venues.values)
    {
      var removed := venues.Delete(venue);
      return if removed then Ok(()) else Err(VenueNotWhitelisted);
    }

    /** `isSplitAvailable`. */
    method IsSplitAvailable() returns (available: bool)
      ensures available <==> Collected(venues.values).Ok?
    {
      available := |venues.values| <= MAX_SPLIT_VENUES;
    }

    /** `_collectVenues`: enumerates by index, past the cap it reverts. */
    method CollectVenues() returns (r: Result<seq<Address>>)
      ensures r == Collected(venues.values)
    {
      var n := |venues.values|;
      if n > MAX_SPLIT_VENUES { return Err(TooManyVenues); }
      var list: seq<Address> := [];
      var i := 0;
      while i < n
        invariant 0 <= i <= n && list == venues.values[..i]
      {
        list := list + [venues.values[i]];
        i := i + 1;
      }
      assert venues.values[..n] == venues.values;
      return Ok(list);
    }

    method IsVenue(venue: Address) returns (r: bool)
      requires Valid()
      ensures r == Chain.IsVenue(Cfg(), venue)
    {
      var listed := venues.Contains(venue);
      return listed || venue == fallbackSwapRouter;
    }

    method ResolveFee(a: Address, b: Address) returns (fee: nat)
      ensures fee == ResolvedFee(Cfg(), a, b)
    {
      var key := PairKey(a, b);
      fee := if key in pairFee then pairFee[key] else 0;
      if fee == 0 { fee := fallbackFee; }
    }

    // ----- Quotes -----

    /** `_tryQuote`: a failing quote reads as zero, and is undone. */
    method TryQuote(env: Env, venue: Address, pair: Pair, amount: u256) returns (out: u256)
      requires Valid()
      modifies `world
      ensures Priced(world, out) == Chain.TryQuote(env, Cfg(), old(world), venue, pair, amount)
    {
      var known := IsVenue(venue);
      if !known { return 0; }
      var answer := env.quote(world, venue, pair, amount);
      if answer.None? { return 0; }
      world := answer.value.world;
      return answer.value.out;
    }

    /** `try this._quoteVenueUnchecked`: a failing quote is undone. */
    method QuoteUnchecked(env: Env, venue: Address, pair: Pair, amount: u256) returns (out: Option<u256>)
      modifies `world
      ensures match env.quote(old(world), venue, pair, amount)
              case Some(p) => out == Some(p.out) && world == p.world
              case None => out == None && world == old(world)
    {
      var answer := env.quote(world, venue, pair, amount);
      if answer.None? { return None; }
      world := answer.value.world;
      return Some(answer.value.out);
    }

    /** `_pickBestPropAMM`. */
    method PickBestPropAMM(env: Env, pair: Pair, amount: u256) returns (best: u256, venue: Address)
      requires Valid()
      modifies `world
      ensures Leading(env, old(world), venues.values, |venues.values|, pair, amount, world, best, venue)
    {
      best, venue := 0, ZERO;
      ghost var list, before := venues.values, world;
      var i := 0;
      while i < |venues.values|
        invariant 0 <= i <= |list| == |venues.values|
        invariant Leading(env, before, list, i, pair, amount, world, best, venue)
      {
        ghost var asking := world;
        var out := QuoteUnchecked(env, venues.values[i], pair, amount);
        NextAnswer(env, before, list, i, pair, amount, asking, best, venue);
        if out.Some? && out.value > best { best, venue := out.value, venues.values[i]; }
        i := i + 1;
      }
    }

    /** `_pickBestVenue`: the fallback joins last, and stands in when nothing can be priced. */
    method PickBestVenue(env: Env, pair: Pair, amount: u256) returns (best: u256, venue: Address)
      requires Valid()
      modifies `world
      ensures var list := venues.values + [fallbackSwapRouter];
        var r := Ask(env, old(world), list, |list|, pair, amount);
        world == r.world && IsBestOr(list, r.outs, best, venue, fallbackSwapRouter)
    {
      best, venue := PickBestPropAMM(env, pair, amount);
      LastJoins(env, old(world), venues.values, fallbackSwapRouter, pair, amount, best, venue);
      if venue == ZERO { venue := fallbackSwapRouter; }
      var out := QuoteUnchecked(env, fallbackSwapRouter, pair, amount);
      if out.Some? && out.value > best { best, venue := out.value, fallbackSwapRouter; }
    }

    // ----- Probing -----

    ghost function OrderOf(env: Env, pair: Pair, amountIn: u256): Order
      reads `fallbackSwapRouter, `fallbackFee, `pairFee, venues
    {
      Order(env, Cfg(), pair, amountIn)
    }

    /** `_probeDownToFillable`. */
    method ProbeDownToFillable(env: Env, venue: Address, pair: Pair, amountIn: u256, from: u256, ceiling: u256)
      returns (fill: u256, out: u256)
      requires Valid()
      modifies `world
      ensures Probed(world, fill, out) ==
        ProbeDown(OrderOf(env, pair, amountIn), venue, old(world), from, ceiling, MAX_SATURATION_STEPS)
    {
      ghost var o := OrderOf(env, pair, amountIn);
      var size := from;
      var i := 0;
      while i < MAX_SATURATION_STEPS
        invariant 0 <= i <= MAX_SATURATION_STEPS
        invariant ProbeDown(o, venue, old(world), from, ceiling, MAX_SATURATION_STEPS)
               == ProbeDown(o, venue, world, size, ceiling, MAX_SATURATION_STEPS - i)
      {
        size := size / 2;
        if size == 0 { return 0, 0; }
        var outAt := TryQuote(env, venue, pair, size);
        if outAt == 0 || outAt > U128_MAX { return 0, 0; }
        if outAt < ceiling { return size, outAt; }
        i := i + 1;
      }
      return 0, 0;
    }

    /** `_probeVenue`. */
    method ProbeVenue(env: Env, venue: Address, pair: Pair, amountIn: u256) returns (fill: u256, out: u256)
      requires Valid()
      modifies `world
      ensures Probed(world, fill, out) == Probe.ProbeVenue(OrderOf(env, pair, amountIn), venue, old(world))
    {
      var known := IsVenue(venue);
      if !known { return 0, 0; }
      if env.isFillable(world, venue) {
        var answer := env.quoteFillable(world, venue, pair, amountIn);
        if answer.None? { return 0, 0; }
        world := answer.value.world;
        if answer.value.fill > amountIn { return 0, 0; }
        return answer.value.fill, answer.value.out;
      }
      var outFull := TryQuote(env, venue, pair, amountIn);
      if outFull > U128_MAX { outFull := 0; }
      var half: u256 := amountIn / 2;
      if half == 0 { return amountIn, outFull; }
      var outHalf := TryQuote(env, venue, pair, half);
      if outHalf > U128_MAX { outHalf := 0; }
      if outFull == 0 && outHalf == 0 { return 0, 0; }
      if outFull == 0 { return half, outHalf; }
      if outHalf == 0 { return amountIn, outFull; }
      if outFull == outHalf {
        fill, out := ProbeDownToFillable(env, venue, pair, amountIn, half, outFull);
        return;
      }
      var saturated := IsSaturated(outFull, outHalf);
      if saturated { return half, outHalf; }
      return amountIn, outFull;
    }

    /** The duplicate scan of `_gatherCandidates`. */
    method ListedBefore(list: seq<Address>, i: nat) returns (dup: bool)
      requires i < |list|
      ensures dup == (list[i] in list[..i])
    {
      var j := 0;
      while j < i
        invariant 0 <= j <= i && list[i] !in list[..j]
      {
        if list[j] == list[i] { return true; }
        j := j + 1;
      }
      return false;
    }

    /** Probes one venue and records it if it yields a candidate. */
    method ProbeInto(env: Env, venue: Address, pair: Pair, amountIn: u256, tmp: array<Candidate>, count: nat)
      returns (n: nat)
      requires Valid() && count < tmp.Length
      modifies `world, tmp
      ensures count <= n <= count + 1
      ensures var p := Probe.ProbeVenue(OrderOf(env, pair, amountIn), venue, old(world));
        && world == p.world
        && tmp[..n] == old(tmp[..count]) +
             if p.fill == 0 || p.out == 0 || p.out > U128_MAX then [] else [Candidate(venue, p.fill, p.out)]
    {
      var fill, out := ProbeVenue(env, venue, pair, amountIn);
      if fill == 0 || out == 0 || out > U128_MAX { return count; }
      tmp[count] := Candidate(venue, fill, out);
      return count + 1;
    }

    /** `_gatherCandidates`: fills a scratch array and trims it. */
    method GatherCandidates(env: Env, list: seq<Address>, pair: Pair, amountIn: u256) returns (cands: array<Candidate>)
      requires Valid() && 0 < amountIn
      modifies `world
      ensures fresh(cands)
      ensures Pool(world, cands[..]) == Gathered(OrderOf(env, pair, amountIn), list, |list|, old(world))
    {
      ghost var o := OrderOf(env, pair, amountIn);
      var tmp := new Candidate[|list|](_ => Candidate(ZERO, 0, 0));
      var count := 0;
      var i := 0;
      while i < |list|
        invariant 0 <= count <= i <= |list| && tmp.Length == |list| && fresh(tmp)
        invariant Pool(world, tmp[..count]) == Gathered(o, list, i, old(world))
      {
        var dup := ListedBefore(list, i);
        if !dup && list[i] != fallbackSwapRouter {
          count := ProbeInto(env, list[i], pair, amountIn, tmp, count);
        }
        i := i + 1;
      }
      cands := Trimmed(tmp, count);
    }

    method Trimmed(tmp: array<Candidate>, count: nat) returns (cands: array<Candidate>)
      requires count <= tmp.Length
      ensures fresh(cands) && cands[..] == tmp[..count]
    {
      cands := new Candidate[count](k requires 0 <= k < tmp.Length reads tmp => tmp[k]);
    }

    // ----- Planning -----

    /** `_waterfall`, on candidates already ranked. Every product it forms is shown to fit a `uint256`. */
    method RunWaterfall(env: Env, cands: array<Candidate>, pair: Pair, amountIn: u256) returns (legs: seq<Leg>)
      requires Valid() && amountIn <= U128_MAX && AllUsable(cands[..], amountIn)
      modifies `world
      ensures Plan(world, legs) == PlanFor(OrderOf(env, pair, amountIn), cands[..], old(world))
    {
      ghost var o, cs := OrderOf(env, pair, amountIn), cands[..];
      var fb := fallbackSwapRouter;
      if cands.Length == 0 { return [Leg(fb, amountIn, 0)]; }

      var refSize: u256 := ReferenceSize(cands, amountIn);
      var refOut: u256 := TryQuote(env, fb, pair, refSize);
      if refOut > U128_MAX { refOut := 0; }

      legs := [];
      var remaining: u256 := amountIn;
      var refined := false;
      ghost var start := Start(o, cs, old(world));
      var i := 0;
      while i < cands.Length && remaining > 0 && |legs| < MAX_LEGS
        invariant 0 <= i <= cands.Length && remaining <= amountIn && cands[..] == cs
        invariant refOut <= U128_MAX && refSize <= U128_MAX
        invariant 0 <= remaining
        invariant Fill(o, cs, 0, start) == Fill(o, cs, i, Scan(world, Ref(refSize, refOut), refined, remaining, legs))
      {
        var c := cands[i];
        assert c == cs[i] && Usable(c, amountIn);
        var contested;
        contested, refSize, refOut, refined := Weigh(env, pair, amountIn, c, refSize, refOut, refined, remaining, legs);
        if contested { break; }
        var leg := CutLeg(c, remaining);
        legs, remaining := legs + [leg], remaining - leg.amountIn;
        i := i + 1;
      }
      if remaining > 0 { legs := legs + [Leg(fb, remaining, 0)]; }
    }

    /** Tests a candidate against the reference, which a first contest has re-quoted at what remains. */
    method Weigh(env: Env, pair: Pair, ghost amountIn: u256, c: Candidate, size: u256, out: u256, known: bool,
                 remaining: u256, ghost legs: seq<Leg>)
      returns (contested: bool, refSize: u256, refOut: u256, refined: bool)
      requires Valid() && c.fill <= U128_MAX && c.out <= U128_MAX
      requires size <= U128_MAX && out <= U128_MAX && remaining <= U128_MAX
      modifies `world
      ensures refSize <= U128_MAX && refOut <= U128_MAX
      ensures Scan(world, Ref(refSize, refOut), refined, remaining, legs)
        == Reconsider(OrderOf(env, pair, amountIn), c, Scan(old(world), Ref(size, out), known, remaining, legs))
      ensures contested == Contested(c, Ref(refSize, refOut))
    {
      refSize, refOut, refined := size, out, known;
      contested := IsContested(c, refSize, refOut);
      if contested && !refined {
        refined := true;
        var newOut := TryQuote(env, fallbackSwapRouter, pair, remaining);
        if newOut != 0 && newOut <= U128_MAX { refSize, refOut := remaining, newOut; }
        contested := IsContested(c, refSize, refOut);
      }
    }

    /** The candidate's leg: its fill or what remains, floored pro rata. */
    method CutLeg(c: Candidate, remaining: u256) returns (leg: Leg)
      requires 0 < c.fill <= U128_MAX && c.out <= U128_MAX
      ensures leg == LegFor(c, remaining) && leg.amountIn <= remaining
    {
      var size: u256 := if c.fill >= remaining then remaining else c.fill;
      var floor := ProRataMin(c.out, c.fill, size);
      return Leg(c.venue, size, floor);
    }

    method IsContested(c: Candidate, refSize: u256, refOut: u256) returns (r: bool)
      requires c.fill <= U128_MAX && c.out <= U128_MAX && refSize <= U128_MAX && refOut <= U128_MAX
      ensures r == Contested(c, Ref(refSize, refOut))
    {
      ProductFits(c.out, refSize);
      ProductFits(refOut, c.fill);
      var lhs: u256 := c.out * refSize;
      var rhs: u256 := refOut * c.fill;
      return lhs <= rhs;
    }

    /** The residual lower bound over the placeable candidates, floored at 1% of the order and at one unit. */
    method ReferenceSize(cands: array<Candidate>, amountIn: u256) returns (size: u256)
      requires amountIn <= U128_MAX
      ensures size == RefSize(cands[..], amountIn) <= U128_MAX
    {
      ghost var cs := cands[..];
      var placeable := if cands.Length < MAX_LEGS then cands.Length else MAX_LEGS;
      var residualLb := amountIn;
      var i := 0;
      while i < placeable
        invariant 0 <= i <= placeable && residualLb == Left(cs, i, amountIn)
      {
        residualLb := if cands[i].fill >= residualLb then 0 else residualLb - cands[i].fill;
        i := i + 1;
      }
      size := if residualLb > amountIn / 100 then residualLb else amountIn / 100;
      if size == 0 { size := 1; }
    }

    /** `_planSplit`: fails only when quoting cost the router some of the input token. */
    method PlanLegs(env: Env, list: seq<Address>, pair: Pair, amountIn: u256) returns (r: Result<seq<Leg>>)
      requires Valid() && 0 < amountIn <= U128_MAX && list == venues.values
      modifies `world
      ensures match PlanSplit(OrderOf(env, pair, amountIn), old(world))
              case Ok(plan) => r == Ok(plan.legs) && world == plan.world
              case Err(e) => r == Err(e)
    {
      ghost var o := OrderOf(env, pair, amountIn);
      var snap := Bal(world, pair.tin, self);
      GatheredHonest(o, list, |list|, world);
      var cands := GatherCandidates(env, list, pair, amountIn);
      SortedKeepsUsable(cands[..], amountIn);
      assert Narrow(cands[..]) by { assert AllUsable(cands[..], amountIn); }
      SortByRateDesc(cands);
      var legs := RunWaterfall(env, cands, pair, amountIn);
      if Bal(world, pair.tin, self) < snap { return Err(QuoteBalanceInvariantViolated); }
      return Ok(legs);
    }

    // ----- Execution -----

    method PayVenue(env: Env, c: SwapCall, payer: Address) returns (ok: bool)
      modifies `world
      ensures match Pay(env, Cfg(), old(world), c, payer)
              case Some(v) => ok && world == v
              case None => !ok
    {
      var paid := if payer == self then Transfer(world, c.pair.tin, self, c.venue, c.amountIn)
                  else Pull(env, world, c.pair.tin, payer, c.venue, c.amountIn);
      if paid.None? { return false; }
      world := paid.value;
      return true;
    }

    /** `_dispatchVenue`. On failure the world is left as the failing step left it: the caller must roll back. */
    method DispatchVenue(env: Env, c: SwapCall, payer: Address, prev: u256) returns (r: Option<u256>)
      requires Valid()
      modifies `world
      ensures match Dispatch(env, Cfg(), old(world), c, payer, prev)
              case Some(p) => r == Some(p.out) && world == p.world
              case None => r == None
    {
      var listed := venues.Contains(c.venue);
      if !listed { return None; }
      var paid := PayVenue(env, c, payer);
      if !paid { return None; }
      var swapped := env.swap(world, c);
      if swapped.None? { return None; }
      world := swapped.value;
      var now := Bal(world, c.pair.tout, c.recipient);
      if now < prev || now - prev < c.minOut { return None; }
      return Some(now - prev);
    }

    /** `_sendWrappedETH`; a failure reverts the whole call. */
    method SendWrappedETH(env: Env, to: Address, amount: u256) returns (r: Result<()>)
      modifies `world
      ensures match SendWrapped(env, Cfg(), old(world), to, amount)
              case Ok(v) => r == Ok(()) && world == v
              case Err(e) => r == Err(e)
    {
      var unwrapped := Withdraw(world, self, amount);
      if unwrapped.None? { return Err(TransferFailed); }
      world := unwrapped.value;
      if to == self { return Ok(()); }
      if !env.acceptsEth(world, to, amount) { return Err(EthTransferFailed); }
      var sent := Transfer(world, ETH_SENTINEL, self, to, amount);
      if sent.None? { return Err(EthTransferFailed); }
      world := sent.value;
      return Ok(());
    }

    /** The `try this._dispatchVenue` of both executors: a failure restores the world. */
    method TryDispatch(env: Env, c: SwapCall, payer: Address, prev: u256) returns (r: Option<u256>)
      requires Valid()
      modifies `world
      ensures match Dispatch(env, Cfg(), old(world), c, payer, prev)
              case Some(p) => r == Some(p.out) && world == p.world
              case None => r == None && world == old(world)
    {
      var frame := world;
      r := DispatchVenue(env, c, payer, prev);
      if r.None? { world := frame; }
    }

    /** The leg loop of `_executeLegs`. */
    method RunVenueLegs(env: Env, legs: seq<Leg>, run: LegRun)
      returns (delivered: u256, fbAmount: u256, ghost events: seq<Swapped>)
      requires Valid() && Total(legs) <= U256_MAX
      modifies `world, `log
      ensures RunLegs(env, Cfg(), run, legs, |legs|, old(world)) == Tally(world, delivered, fbAmount, events)
      ensures log == old(log) + events
    {
      var payee := if run.tokenOut == ETH_SENTINEL then self else run.payTo;
      delivered, fbAmount, events := 0, 0, [];
      var i := 0;
      while i < |legs|
        invariant 0 <= i <= |legs| && log == old(log) + events
        invariant RunLegs(env, Cfg(), run, legs, i, old(world)) == Tally(world, delivered, fbAmount, events)
      {
        TotalPrefix(legs, i);
        TotalMonotone(legs, i + 1);
        var leg := legs[i];
        if leg.venue == fallbackSwapRouter {
          fbAmount := fbAmount + leg.amountIn;
        } else {
          var prev := Bal(world, run.pair.tout, payee);
          var out := TryDispatch(env, SwapCall(leg.venue, run.pair, leg.amountIn, leg.minOut, payee), self, prev);
          if out.Some? {
            delivered := delivered + out.value;
            var e := Swapped(run.sender, run.tokenIn, run.tokenOut, leg.amountIn, out.value, run.swapFor, leg.venue);
            log, events := log + [e], events + [e];
          } else {
            fbAmount := fbAmount + leg.amountIn;
          }
        }
        i := i + 1;
      }
    }

    /** The coalesced fallback swap of `_executeLegs`. */
    method RunFallbackLeg(env: Env, run: LegRun, delivered: u256, fbAmount: u256, ghost events: seq<Swapped>)
      returns (r: Result<u256>, ghost events': seq<Swapped>)
      requires delivered <= Bal(world, run.pair.tout, Payee(Cfg(), run))
      modifies `world, `log
      ensures match RunFallback(env, Cfg(), run, Tally(old(world), delivered, fbAmount, events))
              case Ok(t) =>
                && r == Ok(t.delivered) && world == t.world
                && events + events' == t.events && log == old(log) + events'
              case Err(e) => r == Err(e)
    {
      events' := [];
      if fbAmount == 0 { return Ok(delivered), []; }
      var payee := if run.tokenOut == ETH_SENTINEL then self else run.payTo;
      var uniMin: u256 := if delivered >= run.amountOutMin then 0 else run.amountOutMin - delivered;
      var prev := Bal(world, run.pair.tout, payee);
      var fee := ResolveFee(run.pair.tin, run.pair.tout);
      var swapped := env.uniswap(world, UniCall(fallbackSwapRouter, run.pair, fee, fbAmount, uniMin, payee));
      if swapped.None? { return Err(FallbackReverted), []; }
      world := swapped.value;
      var now := Bal(world, run.pair.tout, payee);
      if now < prev { return Err(Panic), []; }
      if now - prev < uniMin { return Err(InsufficientOutput), []; }
      var e := Swapped(run.sender, run.tokenIn, run.tokenOut, fbAmount, now - prev, run.swapFor, fallbackSwapRouter);
      log := log + [e];
      return Ok(delivered + (now - prev)), [e];
    }

    method SettleLegs(env: Env, legs: seq<Leg>, run: LegRun) returns (r: Result<u256>)
      requires Valid() && Total(legs) <= U256_MAX
      modifies `world, `log
      ensures match RunFallback(env, Cfg(), run, RunLegs(env, Cfg(), run, legs, |legs|, old(world)))
              case Ok(t) => r == Ok(t.delivered) && world == t.world && log == old(log) + t.events
              case Err(e) => r == Err(e)
    {
      var delivered, fbAmount, events := RunVenueLegs(env, legs, run);
      ghost var events';
      r, events' := RunFallbackLeg(env, run, delivered, fbAmount, events);
    }

    /** `_executeLegs`: each venue leg is attempted in its own rollback frame, what fails is coalesced into one
        fallback swap. */
    method ExecuteLegs(env: Env, legs: seq<Leg>, run: LegRun) returns (r: Result<u256>)
      requires Valid()
      modifies `world, `log
      ensures match Execute(env, Cfg(), run, legs, old(world))
              case Ok(t) => r == Ok(t.delivered) && world == t.world && log == old(log) + t.events
              case Err(e) => r == Err(e)
    {
      var total := SumAllocations(legs);
      if total.None? { return Err(Panic); }
      if |legs| == 0 || total.value != run.totalIn { return Err(SplitAllocationMismatch); }
      r := SettleLegs(env, legs, run);
      if r.Err? { return; }
      if r.value < run.amountOutMin { return Err(InsufficientOutput); }
      if run.tokenOut == ETH_SENTINEL {
        var sent := SendWrappedETH(env, run.payTo, r.value);
        if sent.Err? { return Err(sent.error); }
      }
    }

    /** The pre-pass of `_executeLegs`; `None` is the overflow that reverts it. */
    method SumAllocations(legs: seq<Leg>) returns (r: Option<u256>)
      ensures r == if Total(legs) <= U256_MAX then Some(Total(legs)) else None
    {
      var total: u256 := 0;
      var i := 0;
      while i < |legs|
        invariant 0 <= i <= |legs| && total == Total(legs[..i])
      {
        TotalPrefix(legs, i);
        TotalMonotone(legs, i + 1);
        if total + legs[i].amountIn > U256_MAX { return None; }
        total := total + legs[i].amountIn;
        i := i + 1;
      }
      assert legs[..i] == legs;
      return Some(total);
    }

    // ----- Entrypoints -----

    /** The ether sent with a call arrives before the call runs. */
    method ReceiveValue(q: Request) returns (r: Result<()>)
      modifies `world
      ensures match Enter(Cfg(), q, old(world))
              case Ok(v) => r == Ok(()) && world == v
              case Err(e) => r == Err(e)
    {
      var sent := Transfer(world, ETH_SENTINEL, q.sender, self, q.value);
      if sent.None? { return Err(TransferFailed); }
      world := sent.value;
      return Ok(());
    }

    /** `_pullSplitFunds`. */
    method PullSplitFunds(env: Env, q: Request) returns (r: Result<Pair>)
      modifies `world
      ensures match PullFunds(env, Cfg(), q, old(world))
              case Ok(v) => r == Ok(ResolvedPair(q)) && world == v
              case Err(e) => r == Err(e)
    {
      var tout := if q.tokenOut == ETH_SENTINEL then WETH else q.tokenOut;
      if (if q.tokenIn == ETH_SENTINEL then WETH else q.tokenIn) == tout { return Err(IdenticalTokens); }
      if q.tokenIn == ETH_SENTINEL {
        if q.value != q.amountIn { return Err(InvalidValue); }
        var wrapped := Deposit(world, self, q.value);
        if wrapped.None? { return Err(TransferFailed); }
        world := wrapped.value;
        return Ok(Pair(WETH, tout));
      }
      if q.value != 0 { return Err(InvalidValue); }
      var pulled := Pull(env, world, q.tokenIn, q.sender, self, q.amountIn);
      if pulled.None? { return Err(TransferFailed); }
      world := pulled.value;
      return Ok(Pair(q.tokenIn, tout));
    }

    method CheckSplit(q: Request) returns (r: Result<seq<Address>>)
      ensures match Admissible(Cfg(), q)
              case Ok(_) => r == Ok(venues.values)
              case Err(e) => r == Err(e)
    {
      if q.now > q.deadline { return Err(Expired); }
      if q.amountIn == 0 { return Err(ZeroAmount); }
      if q.amountIn > U128_MAX { return Err(AmountTooLarge); }
      r := CollectVenues();
    }

    /** Pull and plan. */
    method PullAndPlan(env: Env, q: Request, list: seq<Address>) returns (r: Result<seq<Leg>>)
      requires Valid() && 0 < q.amountIn <= U128_MAX && list == venues.values
      modifies `world
      ensures match PlanOf(env, Cfg(), q, old(world))
              case Ok(plan) => r == Ok(plan.legs) && world == plan.world
              case Err(e) => r == Err(e)
    {
      var entered := ReceiveValue(q);
      if entered.Err? { return Err(entered.error); }
      var pair := PullSplitFunds(env, q);
      if pair.Err? { return Err(pair.error); }
      r := PlanLegs(env, list, pair.value, q.amountIn);
    }

    /** Pull, plan, execute: the common part of both split entrypoints. */
    method PlanAndExecute(env: Env, q: Request, list: seq<Address>, amountOutMin: u256, payTo: Address)
      returns (r: Result<u256>)
      requires Valid() && 0 < q.amountIn <= U128_MAX && list == venues.values
      modifies `world, `log
      ensures match PlanAndRun(env, Cfg(), q, amountOutMin, payTo, old(world))
              case Ok(t) => r == Ok(t.delivered) && world == t.world && log == old(log) + t.events
              case Err(e) => r == Err(e)
    {
      var legs := PullAndPlan(env, q, list);
      if legs.Err? { return Err(legs.error); }
      r := ExecuteLegs(env, legs.value, RunFor(q, amountOutMin, payTo));
    }

    /** `swapSplitV1`: all or nothing; on success every unit of input and output is accounted for, in at most six
        events, and the router's holding of the input token has not fallen. */
    method SwapSplitV1(env: Env, q: Request) returns (r: Result<u256>)
      requires Valid()
      modifies `world, `log
      ensures q.now > q.deadline ==> r == Err(Expired)
      ensures r.Err? ==> world == old(world) && log == old(log)
      ensures r != Err(SplitAllocationMismatch)
      ensures match SwapSplit(env, Cfg(), q, old(world))
              case Ok(t) => r == Ok(t.delivered) && world == t.world && log == old(log) + t.events
              case Err(e) => r == Err(e)
      ensures r.Ok? ==> exists events ::
        && log == old(log) + events && |events| <= MAX_LEGS + 1
        && SumIn(events) == q.amountIn && SumOut(events) == r.value >= q.amountOutMin
      ensures r.Ok? && Contained(env, self) && q.sender != self ==>
        Bal(world, ResolvedPair(q).tin, self) >= Bal(old(world), ResolvedPair(q).tin, self)
    {
      var savedWorld, savedLog := world, log;
      var list := CheckSplit(q);
      if list.Err? { return Err(list.error); }
      ghost var t := RunGuarantees(env, Cfg(), q, q.amountOutMin, q.recipient, world);
      r := PlanAndExecute(env, q, list.value, q.amountOutMin, q.recipient);
      if r.Err? { world, log := savedWorld, savedLog; }
    }

    method Send(env: Env, token: Address, to: Address, amount: u256) returns (ok: bool)
      modifies `world
      ensures match PayOut(env, Cfg(), token, old(world), to, amount)
              case Some(v) => ok && world == v
              case None => !ok
    {
      if amount == 0 { return true; }
      var sent := if token == ETH_SENTINEL then PayEth(env, Cfg(), world, to, amount)
                  else Transfer(world, token, self, to, amount);
      if sent.None? { return false; }
      world := sent.value;
      return true;
    }

    /** `_feeAmount`, where its product fits. */
    method FeeAmount(amount: u256, bps: nat) returns (fee: u256)
      requires bps <= MAX_FEE_BPS && amount * bps <= U256_MAX
      ensures fee == FeeOn(amount, bps) <= amount
    {
      FeeBounds(amount, bps);
      var product: u256 := amount * bps;
      fee := product / BPS;
    }

    /** `_skimAndDisburse`. */
    method SkimAndDisburse(env: Env, tokenOut: Address, delivered: u256, fee: Fee, recipient: Address,
                           amountOutMin: u256) returns (r: Result<u256>)
      requires fee.bps <= MAX_FEE_BPS
      modifies `world
      ensures match Skim(env, Cfg(), tokenOut, delivered, fee, recipient, amountOutMin, old(world))
              case Ok(p) => r == Ok(p.net) && world == p.world
              case Err(e) => r == Err(e)
    {
      if delivered * fee.bps > U256_MAX { return Err(Panic); }
      var feeAmt := FeeAmount(delivered, fee.bps);
      var net: u256 := delivered - feeAmt;
      var charged := Send(env, tokenOut, fee.recipient, feeAmt);
      if !charged { return Err(TransferFailed); }
      var before := Bal(world, tokenOut, recipient);
      var paid := Send(env, tokenOut, recipient, net);
      if !paid { return Err(TransferFailed); }
      if tokenOut != ETH_SENTINEL {
        if Bal(world, tokenOut, recipient) < before { return Err(Panic); }
        net := Bal(world, tokenOut, recipient) - before;
      }
      if net < amountOutMin { return Err(InsufficientOutput); }
      return Ok(net);
    }

    /** The body of `swapSplitWithFeeV1`. */
    method RunFeeSplit(env: Env, q: Request, fee: Fee) returns (r: Result<u256>)
      requires Valid()
      modifies `world, `log
      ensures match SwapSplitWithFee(env, Cfg(), q, fee, old(world))
              case Ok(s) => r == Ok(s.paid.net) && world == s.paid.world && log == old(log) + s.tally.events
              case Err(e) => r == Err(e)
    {
      if fee.bps > MAX_FEE_BPS { return Err(FeeBpsTooHigh); }
      if fee.recipient == ZERO { return Err(ZeroAddress); }
      var list := CheckSplit(q);
      if list.Err? { return Err(list.error); }
      var grossMin := GrossUp(q.amountOutMin, fee.bps);
      if grossMin.Err? { return Err(grossMin.error); }
      r := PlanAndExecute(env, q, list.value, grossMin.value, self);
      if r.Err? { return; }
      r := SkimAndDisburse(env, q.tokenOut, r.value, fee, q.recipient, q.amountOutMin);
    }

    /** `swapSplitWithFeeV1`: the recipient nets the minimum, and net plus fee is what the events report. */
    method SwapSplitWithFeeV1(env: Env, q: Request, fee: Fee) returns (r: Result<u256>)
      requires Valid()
      modifies `world, `log
      ensures q.now > q.deadline ==> r.Err?
      ensures r.Err? ==> world == old(world) && log == old(log)
      ensures match SwapSplitWithFee(env, Cfg(), q, fee, old(world))
              case Ok(s) => r == Ok(s.paid.net) && world == s.paid.world && log == old(log) + s.tally.events
              case Err(e) => r == Err(e)
      ensures r.Ok? ==> r.value >= q.amountOutMin
      ensures r.Ok? && q.recipient != self ==> exists events ::
        && log == old(log) + events
        && SumIn(events) == q.amountIn && r.value + FeeOn(SumOut(events), fee.bps) == SumOut(events)
    {
      var savedWorld, savedLog := world, log;
      r := RunFeeSplit(env, q, fee);
      if r.Err? {
        world, log := savedWorld, savedLog;
      } else {
        ghost var settled := FeeSplitGuarantees(env, Cfg(), q, fee, savedWorld);
      }
    }

    /** The opening of `_coreSwap`: deadline, value, wrapping, distinct tokens. */
    method PrepareSwap(q: Request) returns (r: Result<Pair>)
      modifies `world
      ensures match Prepare(Cfg(), q, old(world))
              case Ok(v) => r == Ok(ResolvedPair(q)) && world == v
              case Err(e) => r == Err(e)
    {
      if q.now > q.deadline { return Err(Expired); }
      var tin := q.tokenIn;
      if q.tokenIn == ETH_SENTINEL {
        if q.value != q.amountIn { return Err(InvalidValue); }
        var wrapped := Deposit(world, self, q.value);
        if wrapped.None? { return Err(TransferFailed); }
        world := wrapped.value;
        tin := WETH;
      } else if q.value != 0 {
        return Err(InvalidValue);
      }
      var tout := if q.tokenOut == ETH_SENTINEL then WETH else q.tokenOut;
      if tin == tout { return Err(IdenticalTokens); }
      return Ok(Pair(tin, tout));
    }

    /** The fallback arm of `_coreSwap`. */
    method SwapViaFallback(env: Env, pair: Pair, q: Request) returns (r: Result<u256>)
      requires pair == ResolvedPair(q)
      modifies `world
      ensures match ViaFallback(env, Cfg(), q, old(world))
              case Ok(t) => r == Ok(t.out) && world == t.world
              case Err(e) => r == Err(e)
    {
      var receiver := if q.tokenOut == ETH_SENTINEL then self else q.recipient;
      var prev := Bal(world, pair.tout, receiver);
      if q.tokenIn != ETH_SENTINEL {
        var pulled := Pull(env, world, pair.tin, q.sender, self, q.amountIn);
        if pulled.None? { return Err(TransferFailed); }
        world := pulled.value;
      }
      var fee := ResolveFee(pair.tin, pair.tout);
      var swapped := env.uniswap(world,
        UniCall(fallbackSwapRouter, pair, fee, q.amountIn, q.amountOutMin, receiver));
      if swapped.None? { return Err(FallbackReverted); }
      world := swapped.value;
      var now := Bal(world, pair.tout, receiver);
      if now < prev { return Err(Panic); }
      if now - prev < q.amountOutMin { return Err(InsufficientOutput); }
      return Ok(now - prev);
    }

    /** `_coreSwap`: one venue attempt, rolled back into the fallback. */
    method SwapCore(env: Env, venue: Address, q: Request) returns (r: Result<(u256, Address)>)
      requires Valid()
      modifies `world
      ensures match CoreSwap.Swap(env, Cfg(), venue, q, old(world))
              case Ok(d) => r == Ok((d.amountOut, d.executedVenue)) && world == d.world
              case Err(e) => r == Err(e)
    {
      var prepared := PrepareSwap(q);
      if prepared.Err? { return Err(prepared.error); }
      var pair := prepared.value;
      var receiver := if q.tokenOut == ETH_SENTINEL then self else q.recipient;
      var payer := if q.tokenIn == ETH_SENTINEL then self else q.sender;
      var out, executed := None, fallbackSwapRouter;
      if venue != fallbackSwapRouter {
        var prev := Bal(world, pair.tout, receiver);
        out := TryDispatch(env, SwapCall(venue, pair, q.amountIn, q.amountOutMin, receiver), payer, prev);
        if out.Some? { executed := venue; }
      }
      if out.None? {
        var swapped := SwapViaFallback(env, pair, q);
        if swapped.Err? { return Err(swapped.error); }
        out := Some(swapped.value);
      }
      if q.tokenOut == ETH_SENTINEL {
        var sent := SendWrappedETH(env, q.recipient, out.value);
        if sent.Err? { return Err(sent.error); }
      }
      return Ok((out.value, executed));
    }

    /** `swapViaVenueV1`: the caller pays once, on every path, and the router keeps none of it. */
    method SwapViaVenueV1(env: Env, venue: Address, q: Request) returns (r: Result<(u256, Address)>)
      requires Valid()
      modifies `world, `log
      ensures q.now > q.deadline ==> r.Err?
      ensures r.Err? ==> world == old(world) && log == old(log)
      ensures match SwapViaVenue(env, Cfg(), venue, q, old(world))
              case Ok(d) => r == Ok((d.amountOut, d.executedVenue)) && world == d.world
              case Err(e) => r == Err(e)
      ensures r.Ok? ==>
        log == old(log) + [Swapped(q.sender, q.tokenIn, q.tokenOut, q.amountIn, r.value.0, q.recipient, r.value.1)]
      ensures r.Ok? && Exact(env, self) && q.sender != self && q.sender != WETH && self !in venues.values ==>
        Bal(world, ResolvedPair(q).tin, self) == Bal(old(world), ResolvedPair(q).tin, self)
    {
      var savedWorld := world;
      var entered := ReceiveValue(q);
      if entered.Err? {
        world := savedWorld;
        return Err(entered.error);
      }
      var known := IsVenue(venue);
      if !known {
        world := savedWorld;
        return Err(UnknownVenue);
      }
      r := SwapCore(env, venue, q);
      if r.Err? {
        world := savedWorld;
      } else {
        if q.sender != self && q.sender != WETH && self !in venues.values {
          CallerPaysOnce(env, Cfg(), venue, q, savedWorld);
        }
        log := log + [Swapped(q.sender, q.tokenIn, q.tokenOut, q.amountIn, r.value.0, q.recipient, r.value.1)];
      }
    }

    /** The body of `swapV1`, once its ether is credited. */
    method SwapBest(env: Env, q: Request) returns (r: Result<(u256, Address)>, ghost chosen: Address)
      requires Valid()
      modifies `world
      ensures var asked := Ask(env, old(world), venues.values, |venues.values|, ResolvedPair(q), q.amountIn);
        && Chosen(venues.values, asked.outs, q.amountOutMin, fallbackSwapRouter, chosen)
        && match CoreSwap.Swap(env, Cfg(), chosen, q, asked.world)
           case Ok(d) => r == Ok((d.amountOut, d.executedVenue)) && world == d.world
           case Err(e) => r == Err(e)
      ensures r.Ok? ==> r.value.0 >= q.amountOutMin
    {
      var venue := ChooseVenue(env, q);
      chosen := venue;
      SwapOutcome(env, Cfg(), venue, q, world);
      r := SwapCore(env, venue, q);
    }

    /** `swapV1`: the best-quoting venue if its quote clears the minimum, else the fallback. */
    method SwapV1(env: Env, q: Request) returns (r: Result<(u256, Address)>, ghost chosen: Address)
      requires Valid()
      modifies `world, `log
      ensures q.now > q.deadline ==> r.Err?
      ensures r.Err? ==> world == old(world) && log == old(log)
      ensures match Enter(Cfg(), q, old(world))
              case Err(e) => r == Err(e)
              case Ok(entered) =>
                var asked := Ask(env, entered, venues.values, |venues.values|, ResolvedPair(q), q.amountIn);
                && Chosen(venues.values, asked.outs, q.amountOutMin, fallbackSwapRouter, chosen)
                && match CoreSwap.Swap(env, Cfg(), chosen, q, asked.world)
                   case Ok(d) => r == Ok((d.amountOut, d.executedVenue)) && world == d.world
                   case Err(e) => r == Err(e)
      ensures r.Ok? ==> r.value.0 >= q.amountOutMin
      ensures r.Ok? ==>
        log == old(log) + [Swapped(q.sender, q.tokenIn, q.tokenOut, q.amountIn, r.value.0, q.recipient, r.value.1)]
    {
      var savedWorld := world;
      chosen := fallbackSwapRouter;
      var entered := ReceiveValue(q);
      if entered.Err? {
        world := savedWorld;
        return Err(entered.error), chosen;
      }
      r, chosen := SwapBest(env, q);
      if r.Err? {
        world := savedWorld;
      } else {
        log := log + [Swapped(q.sender, q.tokenIn, q.tokenOut, q.amountIn, r.value.0, q.recipient, r.value.1)];
      }
    }

    method ChooseVenue(env: Env, q: Request) returns (venue: Address)
      requires Valid()
      modifies `world
      ensures var asked := Ask(env, old(world), venues.values, |venues.values|, ResolvedPair(q), q.amountIn);
        && world == asked.world
        && Chosen(venues.values, asked.outs, q.amountOutMin, fallbackSwapRouter, venue)
    {
      var best, picked := PickBestPropAMM(env, ResolvedPair(q), q.amountIn);
      venue := if picked == ZERO || best < q.amountOutMin then fallbackSwapRouter else picked;
    }
  }

  /** The venue of the best quote, unless that is below the minimum (or there is none): then the fallback. */
  ghost predicate Chosen(venues: seq<Address>, outs: seq<Option<u256>>, min: u256, fallback: Address, venue: Address) {
    exists best: u256, picked :: IsBest(venues, outs, best, picked)
      && venue == if picked == ZERO || best < min then fallback else picked
  }
}
