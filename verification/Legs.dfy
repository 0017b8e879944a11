/** Running a plan: each leg in its own rollback frame, failures coalesced into one fallback swap. */
module Legs {
  import opened Chain
  import opened Waterfall

  datatype Swapped = Swapped(sender: Address, tokenIn: Address, tokenOut: Address, amountIn: nat, amountOut: nat,
                             recipient: Address, marketMaker: Address)

  /** `LegRun`: `tokenIn`/`tokenOut` as the caller named them, `pair` with native ether resolved. */
  datatype LegRun = LegRun(tokenIn: Address, tokenOut: Address, pair: Pair, totalIn: u256, amountOutMin: u256,
                           payTo: Address, swapFor: Address, sender: Address)

  /** Who is measured while legs run: the router itself when the output still has to be unwrapped. */
  function Payee(cfg: Config, r: LegRun): Address {
    if r.tokenOut == ETH_SENTINEL then cfg.self else r.payTo
  }

  /** The push payment: from the router's own holding, or pulled from the payer. */
  function Pay(env: Env, cfg: Config, w: World, c: SwapCall, payer: Address): Option<World> {
    if payer == cfg.self then Transfer(w, c.pair.tin, cfg.self, c.venue, c.amountIn)
    else Pull(env, w, c.pair.tin, payer, c.venue, c.amountIn)
  }

  /** `_dispatchVenue`: pay the venue, let it swap, measure what arrived. `None` is a revert, of everything. */
  function Dispatch(env: Env, cfg: Config, w: World, c: SwapCall, payer: Address, prev: u256): Option<Priced> {
    if c.venue !in cfg.venues then None
    else
      var paid := Pay(env, cfg, w, c, payer);
      if paid.None? then None
      else
        var swapped := env.swap(paid.value, c);
        if swapped.None? then None
        else
          var now := Bal(swapped.value, c.pair.tout, c.recipient);
          if now < prev || now - prev < c.minOut then None else Some(Priced(swapped.value, now - prev))
  }

  /** The payment moves the call's input from the payer to the venue, if the payer has it (and, unless it is the
      router, has approved it) and the venue's balance can take it. */
  lemma PayExactly(env: Env, cfg: Config, w: World, c: SwapCall, payer: Address)
    ensures Pay(env, cfg, w, c, payer).Some? <==>
      && (payer == cfg.self || env.approved(w, c.pair.tin, payer, c.amountIn))
      && Bal(w, c.pair.tin, payer) >= c.amountIn
      && (payer == c.venue || Bal(w, c.pair.tin, c.venue) + c.amountIn <= U256_MAX)
    ensures Pay(env, cfg, w, c, payer).Some? ==> forall a ::
      Bal(Pay(env, cfg, w, c, payer).value, c.pair.tin, a) ==
        Moved(Bal(w, c.pair.tin, a), a, payer, c.venue, c.amountIn)
  {
    TransferMoves(w, c.pair.tin, payer, c.venue, c.amountIn);
  }

  /** A listed venue takes its payment, swaps, and leaves the recipient at least the minimum above `prev`. */
  ghost predicate Delivers(env: Env, cfg: Config, w: World, c: SwapCall, payer: Address, prev: u256) {
    && c.venue in cfg.venues
    && Pay(env, cfg, w, c, payer).Some?
    && var s := env.swap(Pay(env, cfg, w, c, payer).value, c);
    && s.Some? && Bal(s.value, c.pair.tout, c.recipient) >= prev + c.minOut
  }

  /** Dispatching succeeds exactly when the venue delivers, at the minimum included, and reports what arrived. */
  lemma DispatchExactly(env: Env, cfg: Config, w: World, c: SwapCall, payer: Address, prev: u256)
    ensures Dispatch(env, cfg, w, c, payer, prev).Some? <==> Delivers(env, cfg, w, c, payer, prev)
    ensures Delivers(env, cfg, w, c, payer, prev) ==>
      var s := env.swap(Pay(env, cfg, w, c, payer).value, c).value;
      Dispatch(env, cfg, w, c, payer, prev) == Some(Priced(s, Bal(s, c.pair.tout, c.recipient) - prev))
  {}

  /** What the loop accumulates. */
  datatype Tally = Tally(world: World, delivered: u256, fallbackIn: u256, events: seq<Swapped>)

  function SumIn(events: seq<Swapped>): nat {
    if |events| == 0 then 0 else SumIn(events[..|events| - 1]) + events[|events| - 1].amountIn
  }

  function SumOut(events: seq<Swapped>): nat {
    if |events| == 0 then 0 else SumOut(events[..|events| - 1]) + events[|events| - 1].amountOut
  }

  lemma SumsAppend(events: seq<Swapped>, e: Swapped)
    ensures SumIn(events + [e]) == SumIn(events) + e.amountIn
    ensures SumOut(events + [e]) == SumOut(events) + e.amountOut
  {
    assert (events + [e])[..|events|] == events;
  }

  function LegCall(cfg: Config, r: LegRun, leg: Leg): SwapCall {
    SwapCall(leg.venue, r.pair, leg.amountIn, leg.minOut, Payee(cfg, r))
  }

  function Event(r: LegRun, marketMaker: Address, amountIn: nat, amountOut: nat): Swapped {
    Swapped(r.sender, r.tokenIn, r.tokenOut, amountIn, amountOut, r.swapFor, marketMaker)
  }

  lemma TotalPrefix(legs: seq<Leg>, n: nat)
    requires n < |legs|
    ensures Total(legs[..n + 1]) == Total(legs[..n]) + legs[n].amountIn
  {
    assert legs[..n + 1] == legs[..n] + [legs[n]];
    TotalAppend(legs[..n], legs[n]);
  }

  lemma {:induction false} TotalMonotone(legs: seq<Leg>, n: nat)
    requires n <= |legs|
    ensures Total(legs[..n]) <= Total(legs)
    decreases |legs| - n
  {
    if n < |legs| {
      TotalPrefix(legs, n);
      TotalMonotone(legs, n + 1);
    } else {
      assert legs[..n] == legs;
    }
  }

  /** The first `n` legs. */
  function RunLegs(env: Env, cfg: Config, r: LegRun, legs: seq<Leg>, n: nat, w: World): (t: Tally)
    requires n <= |legs| && Total(legs) <= U256_MAX
    ensures t.fallbackIn <= Total(legs[..n])
    ensures t.delivered <= Bal(t.world, r.pair.tout, Payee(cfg, r))
  {
    if n == 0 then Tally(w, 0, 0, [])
    else
      TotalPrefix(legs, n - 1);
      TotalMonotone(legs, n);
      var t, leg := RunLegs(env, cfg, r, legs, n - 1, w), legs[n - 1];
      var prev := Bal(t.world, r.pair.tout, Payee(cfg, r));
      if leg.venue == cfg.fallback then t.(fallbackIn := t.fallbackIn + leg.amountIn)
      else
        match Dispatch(env, cfg, t.world, LegCall(cfg, r, leg), cfg.self, prev)
        case None => t.(fallbackIn := t.fallbackIn + leg.amountIn)
        case Some(p) =>
          Tally(p.world, t.delivered + p.out, t.fallbackIn, t.events + [Event(r, leg.venue, leg.amountIn, p.out)])
  }

  /** Every input unit is accounted for by an executed leg or by the fallback's share, and what was delivered is
      both the payee's balance increase and the sum over the events. */
  lemma {:induction false} LegsAccounts(env: Env, cfg: Config, r: LegRun, legs: seq<Leg>, n: nat, w: World)
    requires n <= |legs| && Total(legs) <= U256_MAX
    ensures var t := RunLegs(env, cfg, r, legs, n, w);
      && SumIn(t.events) + t.fallbackIn == Total(legs[..n])
      && SumOut(t.events) == t.delivered
      && t.delivered == Bal(t.world, r.pair.tout, Payee(cfg, r)) - Bal(w, r.pair.tout, Payee(cfg, r))
  {
    if n > 0 {
      LegsAccounts(env, cfg, r, legs, n - 1, w);
      TotalPrefix(legs, n - 1);
      var t, leg := RunLegs(env, cfg, r, legs, n - 1, w), legs[n - 1];
      var prev := Bal(t.world, r.pair.tout, Payee(cfg, r));
      var d := Dispatch(env, cfg, t.world, LegCall(cfg, r, leg), cfg.self, prev);
      if leg.venue != cfg.fallback && d.Some? {
        SumsAppend(t.events, Event(r, leg.venue, leg.amountIn, d.value.out));
      }
    }
  }

  /** The `k`-th leg names a venue, which delivers when its turn comes. */
  ghost predicate LegDelivers(env: Env, cfg: Config, r: LegRun, legs: seq<Leg>, k: nat, w: World)
    requires k < |legs| && Total(legs) <= U256_MAX
  {
    var v := RunLegs(env, cfg, r, legs, k, w).world;
    && legs[k].venue != cfg.fallback
    && Delivers(env, cfg, v, LegCall(cfg, r, legs[k]), cfg.self, Bal(v, r.pair.tout, Payee(cfg, r)))
  }

  /** Leg by leg: one that delivers has its event, with what arrived, and takes nothing from the fallback; any other
      leaves the world as it was and its input to the fallback. */
  lemma LegByLeg(env: Env, cfg: Config, r: LegRun, legs: seq<Leg>, k: nat, w: World)
    requires k < |legs| && Total(legs) <= U256_MAX
    ensures var t, u := RunLegs(env, cfg, r, legs, k, w), RunLegs(env, cfg, r, legs, k + 1, w);
      if LegDelivers(env, cfg, r, legs, k, w) then
        && u.fallbackIn == t.fallbackIn && |u.events| == |t.events| + 1 && t.events <= u.events
        && var e := u.events[|t.events|];
        && e.marketMaker == legs[k].venue && e.amountIn == legs[k].amountIn
        && e.amountOut == Bal(u.world, r.pair.tout, Payee(cfg, r)) - Bal(t.world, r.pair.tout, Payee(cfg, r))
      else u == t.(fallbackIn := t.fallbackIn + legs[k].amountIn)
  {
    var v := RunLegs(env, cfg, r, legs, k, w).world;
    TotalPrefix(legs, k);
    TotalMonotone(legs, k + 1);
    DispatchExactly(env, cfg, v, LegCall(cfg, r, legs[k]), cfg.self, Bal(v, r.pair.tout, Payee(cfg, r)));
  }

  /** One event a leg, in order, for as many legs as there are events. */
  ghost predicate Reports(events: seq<Swapped>, legs: seq<Leg>) {
    && |events| <= |legs|
    && forall i :: 0 <= i < |events| ==>
         events[i].marketMaker == legs[i].venue && events[i].amountIn == legs[i].amountIn
  }

  lemma ReportsOneMore(before: seq<Swapped>, events: seq<Swapped>, legs: seq<Leg>)
    requires Reports(before, legs) && |before| < |legs| && |events| == |before| + 1 && before <= events
    requires events[|before|].marketMaker == legs[|before|].venue
    requires events[|before|].amountIn == legs[|before|].amountIn
    ensures Reports(events, legs)
  {}

  /** If the first `m` legs all deliver and at most one fallback leg follows, every one of them has its event, in
      order, and nothing but that fallback leg goes to the fallback. */
  lemma {:induction false} DeliveringLegsExecute(env: Env, cfg: Config, r: LegRun, legs: seq<Leg>, m: nat, n: nat,
                                                 w: World)
    requires m <= |legs| <= m + 1 && n <= |legs| && Total(legs) <= U256_MAX
    requires forall k: nat :: k < m ==> LegDelivers(env, cfg, r, legs, k, w)
    requires m < |legs| ==> legs[m].venue == cfg.fallback
    ensures var t := RunLegs(env, cfg, r, legs, n, w);
      && |t.events| == (if n <= m then n else m)
      && t.fallbackIn == (if n <= m then 0 else legs[m].amountIn)
      && Reports(t.events, legs)
  {
    if n > 0 {
      DeliveringLegsExecute(env, cfg, r, legs, m, n - 1, w);
      LegByLeg(env, cfg, r, legs, n - 1, w);
      if n <= m {
        assert LegDelivers(env, cfg, r, legs, n - 1, w);
        ReportsOneMore(RunLegs(env, cfg, r, legs, n - 1, w).events, RunLegs(env, cfg, r, legs, n, w).events, legs);
      }
    }
  }

  /** An event reports a leg: the venue, its input, and no less than its floor. */
  predicate Fills(e: Swapped, leg: Leg) {
    e.marketMaker == leg.venue && e.amountIn == leg.amountIn && e.amountOut >= leg.minOut
  }

  /** Every event of the loop reports one of the legs, filled at or above its floor. */
  lemma {:induction false} EventsFillLegs(env: Env, cfg: Config, r: LegRun, legs: seq<Leg>, n: nat, w: World, i: nat)
    returns (k: nat)
    requires n <= |legs| && Total(legs) <= U256_MAX && i < |RunLegs(env, cfg, r, legs, n, w).events|
    ensures k < n && legs[k].venue != cfg.fallback && Fills(RunLegs(env, cfg, r, legs, n, w).events[i], legs[k])
  {
    var before := RunLegs(env, cfg, r, legs, n - 1, w);
    if i < |before.events| {
      k := EventsFillLegs(env, cfg, r, legs, n - 1, w, i);
    } else {
      k := n - 1;
    }
  }

  /** At most the first `m` legs are venues': then at most `m` of them report. */
  lemma {:induction false} EventsBound(env: Env, cfg: Config, r: LegRun, legs: seq<Leg>, n: nat, m: nat, w: World)
    requires n <= |legs| && Total(legs) <= U256_MAX
    requires forall k :: m <= k < |legs| ==> legs[k].venue == cfg.fallback
    ensures |RunLegs(env, cfg, r, legs, n, w).events| <= n && |RunLegs(env, cfg, r, legs, n, w).events| <= m
  {
    if n > 0 {
      EventsBound(env, cfg, r, legs, n - 1, m, w);
    }
  }

  /** The fallback's floor: what is still missing from the caller's minimum. */
  function Shortfall(min: u256, delivered: u256): u256 {
    if delivered >= min then 0 else min - delivered
  }

  /** The coalesced fallback swap. */
  function RunFallback(env: Env, cfg: Config, r: LegRun, t: Tally): Result<Tally>
    requires t.delivered <= Bal(t.world, r.pair.tout, Payee(cfg, r))
  {
    if t.fallbackIn == 0 then Ok(t)
    else
      var floor := Shortfall(r.amountOutMin, t.delivered);
      var prev := Bal(t.world, r.pair.tout, Payee(cfg, r));
      var fee := ResolvedFee(cfg, r.pair.tin, r.pair.tout);
      match env.uniswap(t.world, UniCall(cfg.fallback, r.pair, fee, t.fallbackIn, floor, Payee(cfg, r)))
      case None => Err(FallbackReverted)
      case Some(s) =>
        var now := Bal(s, r.pair.tout, Payee(cfg, r));
        if now < prev then Err(Panic)
        else if now - prev < floor then Err(InsufficientOutput)
        else Ok(Tally(s, t.delivered + (now - prev), t.fallbackIn,
                      t.events + [Event(r, cfg.fallback, t.fallbackIn, now - prev)]))
  }

  /** The one call to the Uniswap router: in the pair's tier, for the whole coalesced input, floored at what is still
      missing from the minimum. */
  function FallbackCall(cfg: Config, r: LegRun, t: Tally): UniCall {
    UniCall(cfg.fallback, r.pair, ResolvedFee(cfg, r.pair.tin, r.pair.tout), t.fallbackIn,
            if t.delivered < r.amountOutMin then r.amountOutMin - t.delivered else 0, Payee(cfg, r))
  }

  /** The fallback swap fills at or above its floor. */
  ghost predicate FallbackDelivers(env: Env, cfg: Config, r: LegRun, t: Tally) {
    var c := FallbackCall(cfg, r, t);
    && env.uniswap(t.world, c).Some?
    && Bal(env.uniswap(t.world, c).value, c.pair.tout, c.recipient) >= Bal(t.world, c.pair.tout, c.recipient) + c.minOut
  }

  /** The fallback's part succeeds exactly when there is nothing for it or it delivers; its event is the last. */
  lemma FallbackExactly(env: Env, cfg: Config, r: LegRun, t: Tally)
    requires t.delivered <= Bal(t.world, r.pair.tout, Payee(cfg, r))
    ensures RunFallback(env, cfg, r, t).Ok? <==> t.fallbackIn == 0 || FallbackDelivers(env, cfg, r, t)
    ensures t.fallbackIn == 0 ==> RunFallback(env, cfg, r, t) == Ok(t)
    ensures t.fallbackIn > 0 && FallbackDelivers(env, cfg, r, t) ==>
      var c := FallbackCall(cfg, r, t);
      var s := env.uniswap(t.world, c).value;
      var gain := Bal(s, c.pair.tout, c.recipient) - Bal(t.world, c.pair.tout, c.recipient);
      var u := RunFallback(env, cfg, r, t).value;
      && u.world == s && u.delivered == t.delivered + gain && u.delivered >= r.amountOutMin
      && |u.events| == |t.events| + 1 && t.events <= u.events
      && u.events[|t.events|].marketMaker == cfg.fallback
      && u.events[|t.events|].amountIn == t.fallbackIn && u.events[|t.events|].amountOut == gain
  {}

  /** Sending native ether: the payee may refuse it, and the router's own `receive` takes ether from WETH only. */
  function PayEth(env: Env, cfg: Config, w: World, to: Address, amount: u256): Option<World> {
    if to == cfg.self || !env.acceptsEth(w, to, amount) then None
    else Transfer(w, ETH_SENTINEL, cfg.self, to, amount)
  }

  /** `_sendWrappedETH`. */
  function SendWrapped(env: Env, cfg: Config, w: World, to: Address, amount: u256): Result<World> {
    match Withdraw(w, cfg.self, amount)
    case None => Err(TransferFailed)
    case Some(u) =>
      if to == cfg.self then Ok(u)
      else match PayEth(env, cfg, u, to, amount)
           case None => Err(EthTransferFailed)
           case Some(v) => Ok(v)
  }

  /** Unwrapping succeeds exactly when the WETH is there and is backed and, for anybody but the router, the payee takes
      the ether. */
  lemma UnwrapExactly(env: Env, cfg: Config, w: World, to: Address, amount: u256)
    requires cfg.self != WETH
    ensures SendWrapped(env, cfg, w, to, amount).Ok? <==>
      && amount <= Bal(w, WETH, cfg.self) && amount <= Bal(w, ETH_SENTINEL, WETH)
      && Bal(w, ETH_SENTINEL, cfg.self) + amount <= U256_MAX
      && var u := Withdraw(w, cfg.self, amount).value;
      to != cfg.self ==> env.acceptsEth(u, to, amount) && Bal(u, ETH_SENTINEL, to) + amount <= U256_MAX
  {
    if amount <= Bal(w, WETH, cfg.self) {
      var burned := SetBal(w, WETH, cfg.self, Bal(w, WETH, cfg.self) - amount);
      TransferMoves(burned, ETH_SENTINEL, WETH, cfg.self, amount);
    }
    if Withdraw(w, cfg.self, amount).Some? {
      TransferMoves(Withdraw(w, cfg.self, amount).value, ETH_SENTINEL, cfg.self, to, amount);
    }
  }

  /** `_executeLegs`. */
  function Execute(env: Env, cfg: Config, r: LegRun, legs: seq<Leg>, w: World): Result<Tally> {
    if Total(legs) > U256_MAX then Err(Panic)
    else if |legs| == 0 || Total(legs) != r.totalIn then Err(SplitAllocationMismatch)
    else
      var t :- RunFallback(env, cfg, r, RunLegs(env, cfg, r, legs, |legs|, w));
      if t.delivered < r.amountOutMin then Err(InsufficientOutput)
      else if r.tokenOut != ETH_SENTINEL then Ok(t)
      else
        var v :- SendWrapped(env, cfg, t.world, r.payTo, t.delivered);
        Ok(t.(world := v))
  }

  // ----- When a run succeeds -----

  /** After the loop: the fallback delivers what is left to it or, with nothing left, the venues have delivered the
      minimum. */
  ghost predicate Settles(env: Env, cfg: Config, r: LegRun, t: Tally) {
    if t.fallbackIn == 0 then t.delivered >= r.amountOutMin else FallbackDelivers(env, cfg, r, t)
  }

  /** The run of the legs settles, and native output can then be unwrapped. */
  ghost predicate Executes(env: Env, cfg: Config, r: LegRun, legs: seq<Leg>, w: World)
    requires Total(legs) <= U256_MAX
  {
    var t := RunLegs(env, cfg, r, legs, |legs|, w);
    && Settles(env, cfg, r, t)
    && (r.tokenOut == ETH_SENTINEL ==>
          var u := RunFallback(env, cfg, r, t);
          u.Ok? && SendWrapped(env, cfg, u.value.world, r.payTo, u.value.delivered).Ok?)
  }

  /** Executing legs that sum to the order succeeds exactly when the run settles and native output can be unwrapped. */
  lemma ExecuteExactly(env: Env, cfg: Config, r: LegRun, legs: seq<Leg>, w: World)
    requires |legs| > 0 && Total(legs) == r.totalIn
    ensures Execute(env, cfg, r, legs, w).Ok? <==> Executes(env, cfg, r, legs, w)
  {
    FallbackExactly(env, cfg, r, RunLegs(env, cfg, r, legs, |legs|, w));
  }

  /** Every leg that names a venue delivers when its turn comes. */
  ghost predicate AllDeliver(env: Env, cfg: Config, r: LegRun, legs: seq<Leg>, w: World)
    requires Total(legs) <= U256_MAX
  {
    forall k: nat :: k < |legs| && legs[k].venue != cfg.fallback ==> LegDelivers(env, cfg, r, legs, k, w)
  }

  /** Where every venue delivers, a successful execution reports its legs: one event each, in order. */
  lemma DeliveredLegsAreReported(env: Env, cfg: Config, r: LegRun, legs: seq<Leg>, m: nat, w: World)
    requires m <= |legs| <= m + 1 && Total(legs) == r.totalIn
    requires forall k :: 0 <= k < m ==> legs[k].venue != cfg.fallback
    requires m < |legs| ==> legs[m].venue == cfg.fallback && legs[m].amountIn > 0
    ensures Execute(env, cfg, r, legs, w).Ok? && AllDeliver(env, cfg, r, legs, w) ==>
      var events := Execute(env, cfg, r, legs, w).value.events;
      |events| == |legs| && Reports(events, legs)
  {
    if Execute(env, cfg, r, legs, w).Ok? && AllDeliver(env, cfg, r, legs, w) {
      DeliveringLegsExecute(env, cfg, r, legs, m, |legs|, w);
      var t0 := RunLegs(env, cfg, r, legs, |legs|, w);
      FallbackExactly(env, cfg, r, t0);
      if m < |legs| { ReportsOneMore(t0.events, RunFallback(env, cfg, r, t0).value.events, legs); }
      var t := ExecuteSettles(env, cfg, r, legs, w);
    }
  }

  /** An event names the swap it belongs to, as the caller asked for it. */
  predicate Names(e: Swapped, r: LegRun) {
    e.sender == r.sender && e.recipient == r.swapFor && e.tokenIn == r.tokenIn && e.tokenOut == r.tokenOut
  }

  lemma {:induction false} EventsNameTheRun(env: Env, cfg: Config, r: LegRun, legs: seq<Leg>, n: nat, w: World)
    requires n <= |legs| && Total(legs) <= U256_MAX
    ensures forall i :: 0 <= i < |RunLegs(env, cfg, r, legs, n, w).events| ==>
      Names(RunLegs(env, cfg, r, legs, n, w).events[i], r)
  {
    if n > 0 { EventsNameTheRun(env, cfg, r, legs, n - 1, w); }
  }

  /** Every event of a successful execution names the swap it belongs to. */
  lemma ExecutedEventsName(env: Env, cfg: Config, r: LegRun, legs: seq<Leg>, w: World)
    ensures Execute(env, cfg, r, legs, w).Ok? ==>
      forall i :: 0 <= i < |Execute(env, cfg, r, legs, w).value.events| ==>
        Names(Execute(env, cfg, r, legs, w).value.events[i], r)
  {
    if Execute(env, cfg, r, legs, w).Ok? { EventsNameTheRun(env, cfg, r, legs, |legs|, w); }
  }

  // ----- What a successful run conserves -----

  /** The run of the legs and the fallback swap, before any unwrapping. */
  ghost predicate Settled(env: Env, cfg: Config, r: LegRun, legs: seq<Leg>, w: World, t: Tally) {
    && Total(legs) == r.totalIn
    && RunFallback(env, cfg, r, RunLegs(env, cfg, r, legs, |legs|, w)) == Ok(t)
  }

  /** Accounting of a settled run, for any answers and reverts: input is conserved between the executed legs,
      output is what the payee gained, and the fallback swap is the last event if there is one. */
  lemma SettledAccounts(env: Env, cfg: Config, r: LegRun, legs: seq<Leg>, w: World, t: Tally)
    requires Settled(env, cfg, r, legs, w, t)
    ensures SumIn(t.events) == r.totalIn
    ensures SumOut(t.events) == t.delivered
    ensures t.delivered == Bal(t.world, r.pair.tout, Payee(cfg, r)) - Bal(w, r.pair.tout, Payee(cfg, r))
    ensures t.fallbackIn > 0 ==> 0 < |t.events|
    ensures t.fallbackIn > 0 ==> t.events[|t.events| - 1].marketMaker == cfg.fallback
    ensures t.fallbackIn > 0 ==> t.events[|t.events| - 1].amountIn == t.fallbackIn
  {
    assert legs[..|legs|] == legs;
    LegsAccounts(env, cfg, r, legs, |legs|, w);
    var t0 := RunLegs(env, cfg, r, legs, |legs|, w);
    if t0.fallbackIn > 0 {
      SumsAppend(t0.events, t.events[|t.events| - 1]);
      assert t.events == t0.events + [t.events[|t.events| - 1]];
    }
  }

  /** A venue paid by the router ends with at most (exactly) the leg's input gone from it. */
  lemma DispatchCustody(env: Env, cfg: Config, w: World, c: SwapCall, prev: u256)
    requires Dispatch(env, cfg, w, c, cfg.self, prev).Some?
    ensures var v := Dispatch(env, cfg, w, c, cfg.self, prev).value.world;
      && (Contained(env, cfg.self) ==> Bal(v, c.pair.tin, cfg.self) + c.amountIn >= Bal(w, c.pair.tin, cfg.self))
      && (Exact(env, cfg.self) && cfg.self !in cfg.venues ==>
            Bal(v, c.pair.tin, cfg.self) + c.amountIn == Bal(w, c.pair.tin, cfg.self))
  {
    TransferMoves(w, c.pair.tin, cfg.self, c.venue, c.amountIn);
    var paid := Transfer(w, c.pair.tin, cfg.self, c.venue, c.amountIn);
    assert env.swap(paid.value, c).Some?;
  }

  lemma LegCustody(env: Env, cfg: Config, r: LegRun, legs: seq<Leg>, k: nat, w: World)
    requires k < |legs| && Total(legs) <= U256_MAX
    ensures var t, u, tin := RunLegs(env, cfg, r, legs, k, w), RunLegs(env, cfg, r, legs, k + 1, w), r.pair.tin;
      var spent := SumIn(u.events) - SumIn(t.events);
      && (Contained(env, cfg.self) ==> Bal(u.world, tin, cfg.self) + spent >= Bal(t.world, tin, cfg.self))
      && (Exact(env, cfg.self) && cfg.self !in cfg.venues ==>
            Bal(u.world, tin, cfg.self) + spent == Bal(t.world, tin, cfg.self))
  {
    var t, leg := RunLegs(env, cfg, r, legs, k, w), legs[k];
    var prev := Bal(t.world, r.pair.tout, Payee(cfg, r));
    var d := Dispatch(env, cfg, t.world, LegCall(cfg, r, leg), cfg.self, prev);
    if leg.venue != cfg.fallback && d.Some? {
      SumsAppend(t.events, Event(r, leg.venue, leg.amountIn, d.value.out));
      DispatchCustody(env, cfg, t.world, LegCall(cfg, r, leg), prev);
    }
  }

  /** The router's holding of the input token falls by no more than the legs that ran were given (and, with exact
      counterparties, by just that). */
  lemma {:induction false} LegsCustody(env: Env, cfg: Config, r: LegRun, legs: seq<Leg>, n: nat, w: World)
    requires n <= |legs| && Total(legs) <= U256_MAX
    ensures var t, tin := RunLegs(env, cfg, r, legs, n, w), r.pair.tin;
      && (Contained(env, cfg.self) ==> Bal(t.world, tin, cfg.self) + SumIn(t.events) >= Bal(w, tin, cfg.self))
      && (Exact(env, cfg.self) && cfg.self !in cfg.venues ==>
            Bal(t.world, tin, cfg.self) + SumIn(t.events) == Bal(w, tin, cfg.self))
  {
    if n > 0 {
      LegsCustody(env, cfg, r, legs, n - 1, w);
      LegCustody(env, cfg, r, legs, n - 1, w);
    }
  }

  /** Custody of a settled run: the router ends with at least (exactly) what it held before, less the order. */
  lemma SettledCustody(env: Env, cfg: Config, r: LegRun, legs: seq<Leg>, w: World, t: Tally)
    requires Settled(env, cfg, r, legs, w, t)
    ensures Contained(env, cfg.self) ==> Bal(t.world, r.pair.tin, cfg.self) >= Bal(w, r.pair.tin, cfg.self) - r.totalIn
    ensures Exact(env, cfg.self) && cfg.self !in cfg.venues ==>
      Bal(t.world, r.pair.tin, cfg.self) == Bal(w, r.pair.tin, cfg.self) - r.totalIn
  {
    LegsCustody(env, cfg, r, legs, |legs|, w);
    LegsAccounts(env, cfg, r, legs, |legs|, w);
    assert legs[..|legs|] == legs;
  }

  lemma ExecuteSettles(env: Env, cfg: Config, r: LegRun, legs: seq<Leg>, w: World) returns (t: Tally)
    requires Execute(env, cfg, r, legs, w).Ok?
    ensures Settled(env, cfg, r, legs, w, t) && t.delivered >= r.amountOutMin
    ensures var x := Execute(env, cfg, r, legs, w).value;
      && x.delivered == t.delivered && x.events == t.events && x.fallbackIn == t.fallbackIn
      && (r.tokenOut != ETH_SENTINEL ==> x == t)
      && (r.tokenOut == ETH_SENTINEL ==> SendWrapped(env, cfg, t.world, r.payTo, t.delivered) == Ok(x.world))
  {
    t := RunFallback(env, cfg, r, RunLegs(env, cfg, r, legs, |legs|, w)).value;
  }

  /** Native output: unwrapping credits the payee with exactly what was delivered. */
  lemma UnwrapPays(env: Env, cfg: Config, w: World, to: Address, amount: u256)
    requires SendWrapped(env, cfg, w, to, amount).Ok?
    ensures var v := SendWrapped(env, cfg, w, to, amount).value;
      && Bal(v, WETH, cfg.self) == Bal(w, WETH, cfg.self) - amount
      && (to != WETH && cfg.self != WETH ==> Bal(v, ETH_SENTINEL, to) == Bal(w, ETH_SENTINEL, to) + amount)
      && (forall t, a :: t != ETH_SENTINEL && (t != WETH || a != cfg.self) ==> Bal(v, t, a) == Bal(w, t, a))
  {
    WithdrawUnwraps(w, cfg.self, amount);
    var u := Withdraw(w, cfg.self, amount).value;
    TransferMoves(u, ETH_SENTINEL, cfg.self, to, amount);
  }

  /** What a successful execution guarantees, whatever the venues answered, filled or refused. `t` is the state
      before any unwrapping; `m` counts the legs that name a venue. */
  lemma ExecuteGuarantees(env: Env, cfg: Config, r: LegRun, legs: seq<Leg>, m: nat, w: World) returns (t: Tally)
    requires Execute(env, cfg, r, legs, w).Ok?
    requires forall k :: m <= k < |legs| ==> legs[k].venue == cfg.fallback
    requires r.pair.tin != r.pair.tout && r.pair.tin != ETH_SENTINEL
    requires r.tokenOut == ETH_SENTINEL ==> r.pair.tout == WETH
    ensures var x := Execute(env, cfg, r, legs, w).value;
      && Settled(env, cfg, r, legs, w, t)
      && SumIn(x.events) == r.totalIn
      && SumOut(x.events) == x.delivered >= r.amountOutMin
      && 0 < |legs| && |x.events| <= m + 1
      && (r.tokenOut != ETH_SENTINEL ==>
            Bal(x.world, r.pair.tout, r.payTo) == Bal(w, r.pair.tout, r.payTo) + x.delivered)
      && (r.tokenOut == ETH_SENTINEL ==>
            && Bal(x.world, WETH, cfg.self) == Bal(w, WETH, cfg.self)
            && (r.payTo != WETH && cfg.self != WETH ==>
                  Bal(x.world, ETH_SENTINEL, r.payTo) == Bal(t.world, ETH_SENTINEL, r.payTo) + x.delivered))
      && (Contained(env, cfg.self) ==>
            Bal(x.world, r.pair.tin, cfg.self) >= Bal(w, r.pair.tin, cfg.self) - r.totalIn)
      && (Exact(env, cfg.self) && cfg.self !in cfg.venues ==>
            Bal(x.world, r.pair.tin, cfg.self) == Bal(w, r.pair.tin, cfg.self) - r.totalIn)
  {
    t := ExecuteSettles(env, cfg, r, legs, w);
    SettledAccounts(env, cfg, r, legs, w, t);
    EventsBound(env, cfg, r, legs, |legs|, m, w);
    SettledCustody(env, cfg, r, legs, w, t);
    if r.tokenOut == ETH_SENTINEL { UnwrapPays(env, cfg, t.world, r.payTo, t.delivered); }
  }
}
