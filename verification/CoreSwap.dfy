/** The single-venue swap: one attempt at the chosen venue, rolled back into the fallback when it fails. */
module CoreSwap {
  import opened Chain
  import opened Legs

  datatype Request = Request(sender: Address, value: u256, tokenIn: Address, tokenOut: Address, amountIn: u256,
                             amountOutMin: u256, recipient: Address, deadline: nat, now: nat)

  datatype Done = Done(world: World, amountOut: u256, executedVenue: Address)

  function ResolveToken(token: Address): Address {
    if token == ETH_SENTINEL then WETH else token
  }

  function ResolvedPair(q: Request): Pair { Pair(ResolveToken(q.tokenIn), ResolveToken(q.tokenOut)) }

  /** Who receives the venue's output: the router itself when the output still has to be unwrapped. */
  function Receiver(cfg: Config, q: Request): Address {
    if q.tokenOut == ETH_SENTINEL then cfg.self else q.recipient
  }

  function Payer(cfg: Config, q: Request): Address {
    if q.tokenIn == ETH_SENTINEL then cfg.self else q.sender
  }

  /** Ether sent with the call is credited before the code runs. */
  function Enter(cfg: Config, q: Request, w: World): Result<World> {
    match Transfer(w, ETH_SENTINEL, q.sender, cfg.self, q.value)
    case None => Err(TransferFailed)
    case Some(v) => Ok(v)
  }

  /** The checks and the wrapping that precede any venue. */
  function Prepare(cfg: Config, q: Request, w: World): Result<World> {
    if q.now > q.deadline then Err(Expired)
    else if q.tokenIn == ETH_SENTINEL then
      if q.value != q.amountIn then Err(InvalidValue)
      else match Deposit(w, cfg.self, q.value)
           case None => Err(TransferFailed)
           case Some(v) => if ResolvedPair(q).tin == ResolvedPair(q).tout then Err(IdenticalTokens) else Ok(v)
    else if q.value != 0 then Err(InvalidValue)
    else if ResolvedPair(q).tin == ResolvedPair(q).tout then Err(IdenticalTokens)
    else Ok(w)
  }

  function VenueCall(cfg: Config, q: Request, venue: Address): SwapCall {
    SwapCall(venue, ResolvedPair(q), q.amountIn, q.amountOutMin, Receiver(cfg, q))
  }

  function Attempt(env: Env, cfg: Config, venue: Address, q: Request, w: World): Option<Priced> {
    Dispatch(env, cfg, w, VenueCall(cfg, q, venue), Payer(cfg, q), Bal(w, ResolvedPair(q).tout, Receiver(cfg, q)))
  }

  /** A swap that has been measured but not yet unwrapped. */
  datatype Traded = Traded(world: World, out: u256, venue: Address)

  /** The fallback arm: pull the input if it was not wrapped here, swap, measure. */
  function ViaFallback(env: Env, cfg: Config, q: Request, w: World): Result<Traded> {
    var pair := ResolvedPair(q);
    var prev := Bal(w, pair.tout, Receiver(cfg, q));
    var funded := if q.tokenIn == ETH_SENTINEL then Some(w)
                  else Pull(env, w, pair.tin, q.sender, cfg.self, q.amountIn);
    if funded.None? then Err(TransferFailed)
    else
      var fee := ResolvedFee(cfg, pair.tin, pair.tout);
      match env.uniswap(funded.value, UniCall(cfg.fallback, pair, fee, q.amountIn, q.amountOutMin, Receiver(cfg, q)))
      case None => Err(FallbackReverted)
      case Some(s) =>
        var now := Bal(s, pair.tout, Receiver(cfg, q));
        if now < prev then Err(Panic)
        else if now - prev < q.amountOutMin then Err(InsufficientOutput)
        else Ok(Traded(s, now - prev, cfg.fallback))
  }

  /** The venue if it is not the fallback and its attempt succeeds, else the fallback. */
  function Trade(env: Env, cfg: Config, venue: Address, q: Request, w: World): Result<Traded> {
    var a := if venue == cfg.fallback then None else Attempt(env, cfg, venue, q, w);
    match a
    case Some(p) => Ok(Traded(p.world, p.out, venue))
    case None => ViaFallback(env, cfg, q, w)
  }

  /** Unwraps for the recipient when the output is native ether. */
  function Deliver(env: Env, cfg: Config, q: Request, t: Traded): Result<Done> {
    if q.tokenOut == ETH_SENTINEL then
      var v :- SendWrapped(env, cfg, t.world, q.recipient, t.out);
      Ok(Done(v, t.out, t.venue))
    else Ok(Done(t.world, t.out, t.venue))
  }

  /** `_coreSwap`. */
  function Swap(env: Env, cfg: Config, venue: Address, q: Request, w: World): Result<Done> {
    var v :- Prepare(cfg, q, w);
    var t :- Trade(env, cfg, venue, q, v);
    Deliver(env, cfg, q, t)
  }

  /** The venue is listed, takes its payment, and delivers the minimum or more. */
  ghost predicate VenueDelivers(env: Env, cfg: Config, venue: Address, q: Request, v: World) {
    Delivers(env, cfg, v, VenueCall(cfg, q, venue), Payer(cfg, q), Bal(v, ResolvedPair(q).tout, Receiver(cfg, q)))
  }

  /** The venue, from the prepared world, reverts, under-delivers or is not listed. */
  ghost predicate AttemptFails(env: Env, cfg: Config, venue: Address, q: Request, w: World) {
    Prepare(cfg, q, w).Ok? ==> !VenueDelivers(env, cfg, venue, q, Prepare(cfg, q, w).value)
  }

  /** Rollback is complete: a swap reports the named venue exactly when its attempt succeeded and it was not the
      fallback to begin with; otherwise world and result are those of naming the fallback at once. */
  lemma FailedAttemptIsDirectFallback(env: Env, cfg: Config, venue: Address, q: Request, w: World)
    ensures AttemptFails(env, cfg, venue, q, w) ==>
      Swap(env, cfg, venue, q, w) == Swap(env, cfg, cfg.fallback, q, w)
    ensures venue !in cfg.venues ==> AttemptFails(env, cfg, venue, q, w)
    ensures Swap(env, cfg, venue, q, w).Ok? && venue != cfg.fallback ==>
      Swap(env, cfg, venue, q, w).value.executedVenue ==
        (if AttemptFails(env, cfg, venue, q, w) then cfg.fallback else venue)
  {
    if Prepare(cfg, q, w).Ok? {
      var v := Prepare(cfg, q, w).value;
      DispatchExactly(env, cfg, v, VenueCall(cfg, q, venue), Payer(cfg, q),
                      Bal(v, ResolvedPair(q).tout, Receiver(cfg, q)));
    }
  }

  /** A venue that delivers decides the trade: its world, what arrived, its name. */
  lemma DeliveringVenueTrades(env: Env, cfg: Config, venue: Address, q: Request, v: World)
    requires venue != cfg.fallback && VenueDelivers(env, cfg, venue, q, v)
    ensures var c, tout := VenueCall(cfg, q, venue), ResolvedPair(q).tout;
      var s := env.swap(Pay(env, cfg, v, c, Payer(cfg, q)).value, c).value;
      Trade(env, cfg, venue, q, v) == Ok(Traded(s, Bal(s, tout, c.recipient) - Bal(v, tout, c.recipient), venue))
  {
    DispatchExactly(env, cfg, v, VenueCall(cfg, q, venue), Payer(cfg, q),
                    Bal(v, ResolvedPair(q).tout, Receiver(cfg, q)));
  }

  /** The call to the Uniswap router: in the pair's tier, for the whole input, floored at the minimum. */
  function UniswapCall(cfg: Config, q: Request): UniCall {
    var pair := ResolvedPair(q);
    UniCall(cfg.fallback, pair, ResolvedFee(cfg, pair.tin, pair.tout), q.amountIn, q.amountOutMin, Receiver(cfg, q))
  }

  /** Where the input is once the fallback is funded: in the router, pulled there if it was not wrapped there. */
  function Funded(env: Env, cfg: Config, q: Request, v: World): Option<World> {
    if q.tokenIn == ETH_SENTINEL then Some(v) else Pull(env, v, q.tokenIn, q.sender, cfg.self, q.amountIn)
  }

  /** The fallback trade succeeds exactly when it can be funded and Uniswap delivers the minimum or more, measured
      from before the funding. */
  lemma ViaFallbackExactly(env: Env, cfg: Config, q: Request, v: World)
    ensures var f, c, r := Funded(env, cfg, q, v), UniswapCall(cfg, q), ViaFallback(env, cfg, q, v);
      && (r.Ok? <==>
            && f.Some? && env.uniswap(f.value, c).Some?
            && Bal(env.uniswap(f.value, c).value, c.pair.tout, c.recipient) >=
                 Bal(v, c.pair.tout, c.recipient) + q.amountOutMin)
      && (r.Ok? ==>
            var s := env.uniswap(f.value, c).value;
            r.value == Traded(s, Bal(s, c.pair.tout, c.recipient) - Bal(v, c.pair.tout, c.recipient), cfg.fallback))
  {}

  /** A Uniswap that pays `pays(pair, tier, amount)` to whom the call names. */
  ghost predicate UniswapPays(env: Env, pays: (Pair, nat, nat) -> nat) {
    forall w, c :: env.uniswap(w, c).Some? ==>
      Bal(env.uniswap(w, c).value, c.pair.tout, c.recipient) ==
        Bal(w, c.pair.tout, c.recipient) + pays(c.pair, c.fee, c.amountIn)
  }

  /** Under such a Uniswap a fallback trade delivers what the pair's own tier pays for the whole input. */
  lemma FallbackPaysItsTier(env: Env, cfg: Config, q: Request, v: World, pays: (Pair, nat, nat) -> nat)
    requires UniswapPays(env, pays) && ResolvedPair(q).tin != ResolvedPair(q).tout
    ensures var pair := ResolvedPair(q);
      ViaFallback(env, cfg, q, v).Ok? ==>
        ViaFallback(env, cfg, q, v).value.out == pays(pair, ResolvedFee(cfg, pair.tin, pair.tout), q.amountIn)
  {
    ViaFallbackExactly(env, cfg, q, v);
    TransferMoves(v, q.tokenIn, q.sender, cfg.self, q.amountIn);
  }

  /** The opening checks pass exactly for a call in time, with the right ether and two different tokens, whose ether
      can be wrapped. A late call is `Expired`. */
  lemma PrepareExactly(cfg: Config, q: Request, w: World)
    ensures q.now > q.deadline ==> Prepare(cfg, q, w) == Err(Expired)
    ensures Prepare(cfg, q, w).Ok? <==>
      && q.now <= q.deadline
      && q.value == (if q.tokenIn == ETH_SENTINEL then q.amountIn else 0)
      && ResolvedPair(q).tin != ResolvedPair(q).tout
      && (q.tokenIn == ETH_SENTINEL ==> Deposit(w, cfg.self, q.value).Some?)
  {}

  /** Foreign contracts leave this holder's balance of the token being sold, and its ether, alone. */
  ghost predicate Untouched(env: Env, who: Address) {
    && (forall w, c :: env.swap(w, c).Some? ==> SameHoldings(w, env.swap(w, c).value, c.pair.tin, who))
    && (forall w, c :: env.uniswap(w, c).Some? ==> SameHoldings(w, env.uniswap(w, c).value, c.pair.tin, who))
  }

  ghost predicate SameHoldings(w: World, v: World, token: Address, who: Address) {
    Bal(v, token, who) == Bal(w, token, who) && Bal(v, ETH_SENTINEL, who) == Bal(w, ETH_SENTINEL, who)
  }

  lemma PrepareEffect(cfg: Config, q: Request, w: World)
    requires Prepare(cfg, q, w).Ok?
    ensures var v, pair := Prepare(cfg, q, w).value, ResolvedPair(q);
      && pair.tin != pair.tout && pair.tin != ETH_SENTINEL && pair.tout != ETH_SENTINEL
      && q.value == (if q.tokenIn == ETH_SENTINEL then q.amountIn else 0)
      && Bal(v, pair.tin, cfg.self) ==
           Bal(w, pair.tin, cfg.self) + (if q.tokenIn == ETH_SENTINEL then q.amountIn else 0)
      && (forall a :: Bal(v, pair.tout, a) == Bal(w, pair.tout, a))
      && (forall a :: a != cfg.self ==> Bal(v, pair.tin, a) == Bal(w, pair.tin, a))
      && (forall a :: a != cfg.self && a != WETH ==> Bal(v, ETH_SENTINEL, a) == Bal(w, ETH_SENTINEL, a))
  {
    if q.tokenIn == ETH_SENTINEL { DepositWraps(w, cfg.self, q.value); }
  }

  /** A trade credits the receiver with the measured output, which clears the minimum. */
  lemma TradeDelivers(env: Env, cfg: Config, venue: Address, q: Request, v: World)
    requires Trade(env, cfg, venue, q, v).Ok? && ResolvedPair(q).tin != ResolvedPair(q).tout
    ensures var t, tout := Trade(env, cfg, venue, q, v).value, ResolvedPair(q).tout;
      && t.out >= q.amountOutMin
      && Bal(t.world, tout, Receiver(cfg, q)) == Bal(v, tout, Receiver(cfg, q)) + t.out
  {}

  /** A trade's input comes out of the router if it was wrapped there, and out of the caller otherwise. */
  lemma TradeTakesInput(env: Env, cfg: Config, venue: Address, q: Request, v: World)
    requires Trade(env, cfg, venue, q, v).Ok?
    requires cfg.self !in cfg.venues && q.sender != cfg.self
    ensures var t, tin := Trade(env, cfg, venue, q, v).value, ResolvedPair(q).tin;
      var own := if q.tokenIn == ETH_SENTINEL then q.amountIn else 0;
      && (Contained(env, cfg.self) ==> Bal(t.world, tin, cfg.self) >= Bal(v, tin, cfg.self) - own)
      && (Exact(env, cfg.self) ==> Bal(t.world, tin, cfg.self) == Bal(v, tin, cfg.self) - own)
      && (Untouched(env, q.sender) && q.sender !in cfg.venues && tin != ETH_SENTINEL ==>
            && Bal(t.world, tin, q.sender) == Bal(v, tin, q.sender) - (q.amountIn - own)
            && Bal(t.world, ETH_SENTINEL, q.sender) == Bal(v, ETH_SENTINEL, q.sender))
  {
    var tin := ResolvedPair(q).tin;
    var a := if venue == cfg.fallback then None else Attempt(env, cfg, venue, q, v);
    TransferMoves(v, tin, Payer(cfg, q), venue, q.amountIn);
    TransferMoves(v, tin, q.sender, cfg.self, q.amountIn);
    if a.Some? {
      var paid := if q.tokenIn == ETH_SENTINEL then Transfer(v, tin, cfg.self, venue, q.amountIn)
                  else Pull(env, v, tin, q.sender, venue, q.amountIn);
      assert paid.Some? && env.swap(paid.value, VenueCall(cfg, q, venue)) == Some(a.value.world);
    }
  }

  /** Output of a successful swap, on every path: at least the minimum, measured as the receiver's balance
      increase; native output passes through the router's WETH without a trace. `t` is the state before unwrapping. */
  lemma SwapDelivers(env: Env, cfg: Config, venue: Address, q: Request, w: World) returns (t: Traded)
    requires Swap(env, cfg, venue, q, w).Ok?
    ensures Trade(env, cfg, venue, q, Prepare(cfg, q, w).value) == Ok(t)
    ensures var d := Swap(env, cfg, venue, q, w).value;
      && d.amountOut >= q.amountOutMin
      && (q.tokenOut != ETH_SENTINEL ==>
            Bal(d.world, q.tokenOut, q.recipient) == Bal(w, q.tokenOut, q.recipient) + d.amountOut)
      && (q.tokenOut == ETH_SENTINEL ==>
            && Bal(d.world, WETH, cfg.self) == Bal(w, WETH, cfg.self)
            && (q.recipient != WETH && cfg.self != WETH ==>
                  Bal(d.world, ETH_SENTINEL, q.recipient) == Bal(t.world, ETH_SENTINEL, q.recipient) + d.amountOut))
  {
    var v := Prepare(cfg, q, w).value;
    PrepareEffect(cfg, q, w);
    t := Trade(env, cfg, venue, q, v).value;
    TradeDelivers(env, cfg, venue, q, v);
    if q.tokenOut == ETH_SENTINEL { UnwrapPays(env, cfg, t.world, q.recipient, t.out); }
  }

  /** The input side of a successful swap, from the world its ether was credited in. */
  lemma SwapTakesInput(env: Env, cfg: Config, venue: Address, q: Request, w: World)
    requires Swap(env, cfg, venue, q, w).Ok?
    requires cfg.self !in cfg.venues && q.sender != cfg.self && q.sender != WETH
    ensures q.value == (if q.tokenIn == ETH_SENTINEL then q.amountIn else 0)
    ensures var d, tin := Swap(env, cfg, venue, q, w).value, ResolvedPair(q).tin;
      && (Contained(env, cfg.self) ==> Bal(d.world, tin, cfg.self) >= Bal(w, tin, cfg.self))
      && (Exact(env, cfg.self) ==> Bal(d.world, tin, cfg.self) == Bal(w, tin, cfg.self))
      && (Untouched(env, q.sender) && q.sender !in cfg.venues ==>
            && (q.tokenIn != ETH_SENTINEL ==> Bal(d.world, tin, q.sender) == Bal(w, tin, q.sender) - q.amountIn)
            && (q.tokenIn == ETH_SENTINEL ==> Bal(d.world, ETH_SENTINEL, q.sender) == Bal(w, ETH_SENTINEL, q.sender)))
  {
    var v := Prepare(cfg, q, w).value;
    PrepareEffect(cfg, q, w);
    var t := Trade(env, cfg, venue, q, v).value;
    TradeTakesInput(env, cfg, venue, q, v);
    if q.tokenOut == ETH_SENTINEL { UnwrapPays(env, cfg, t.world, q.recipient, t.out); }
  }

  /** `swapViaVenueV1`, with the ether it was sent credited first. */
  function SwapViaVenue(env: Env, cfg: Config, venue: Address, q: Request, w: World): Result<Done> {
    var e :- Enter(cfg, q, w);
    if !IsVenue(cfg, venue) then Err(UnknownVenue) else Swap(env, cfg, venue, q, e)
  }

  /** The whole call, on every ether/ERC-20 and venue/fallback path: the caller is debited `amountIn` of the token it
      named, once, and the router's own holding of the input token is as before. */
  lemma CallerPaysOnce(env: Env, cfg: Config, venue: Address, q: Request, w: World)
    requires SwapViaVenue(env, cfg, venue, q, w).Ok?
    requires cfg.self !in cfg.venues && q.sender != cfg.self && q.sender != WETH
    ensures var d, tin := SwapViaVenue(env, cfg, venue, q, w).value, ResolvedPair(q).tin;
      && (Contained(env, cfg.self) ==> Bal(d.world, tin, cfg.self) >= Bal(w, tin, cfg.self))
      && (Exact(env, cfg.self) ==> Bal(d.world, tin, cfg.self) == Bal(w, tin, cfg.self))
      && (Untouched(env, q.sender) && q.sender !in cfg.venues ==>
            Bal(d.world, q.tokenIn, q.sender) == Bal(w, q.tokenIn, q.sender) - q.amountIn)
  {
    TransferMoves(w, ETH_SENTINEL, q.sender, cfg.self, q.value);
    var e := Enter(cfg, q, w).value;
    PrepareEffect(cfg, q, e);
    SwapTakesInput(env, cfg, venue, q, e);
  }

  /** A swap succeeds exactly when its opening checks pass, the named venue delivers or, failing that (or if it is the
      fallback), the fallback trade succeeds, and native output can be unwrapped. */
  lemma SwapSucceedsExactly(env: Env, cfg: Config, venue: Address, q: Request, w: World)
    ensures Swap(env, cfg, venue, q, w).Ok? <==>
      && Prepare(cfg, q, w).Ok?
      && var v := Prepare(cfg, q, w).value;
      && ((venue != cfg.fallback && VenueDelivers(env, cfg, venue, q, v)) || ViaFallback(env, cfg, q, v).Ok?)
      && (q.tokenOut == ETH_SENTINEL ==>
            var t := Trade(env, cfg, venue, q, v).value;
            SendWrapped(env, cfg, t.world, q.recipient, t.out).Ok?)
  {
    if Prepare(cfg, q, w).Ok? {
      var v := Prepare(cfg, q, w).value;
      DispatchExactly(env, cfg, v, VenueCall(cfg, q, venue), Payer(cfg, q),
                      Bal(v, ResolvedPair(q).tout, Receiver(cfg, q)));
    }
  }

  /** Only a listed venue or the fallback can be named, and only in time. */
  lemma OnlyKnownVenues(env: Env, cfg: Config, venue: Address, q: Request, w: World)
    requires Enter(cfg, q, w).Ok?
    ensures SwapViaVenue(env, cfg, venue, q, w) == Err(UnknownVenue) <==> venue !in cfg.venues && venue != cfg.fallback
    ensures q.now > q.deadline ==> SwapViaVenue(env, cfg, venue, q, w).Err?
  {
    var e := Enter(cfg, q, w).value;
    PrepareExactly(cfg, q, e);
    NeverUnknown(env, cfg, venue, q, e);
  }

  lemma NeverUnknown(env: Env, cfg: Config, venue: Address, q: Request, w: World)
    ensures Swap(env, cfg, venue, q, w) != Err(UnknownVenue)
  {}

  /** What callers of a swap rely on: the minimum is met, by the fallback or by the listed venue they chose. */
  lemma SwapOutcome(env: Env, cfg: Config, venue: Address, q: Request, w: World)
    ensures Swap(env, cfg, venue, q, w).Ok? ==>
      var d := Swap(env, cfg, venue, q, w).value;
      && d.amountOut >= q.amountOutMin
      && (d.executedVenue == cfg.fallback || (d.executedVenue == venue && venue in cfg.venues))
  {
    if Swap(env, cfg, venue, q, w).Ok? { var _ := SwapDelivers(env, cfg, venue, q, w); }
  }
}
