/** `swapSplitV1` and its fee variant, end to end: pull, plan under the balance bracket, execute, skim. */
module Split {
  import opened Chain
  import opened SplitPlanner
  import opened Waterfall
  import opened Probe
  import opened Legs
  import opened CoreSwap
  import opened Fees

  const MAX_SPLIT_VENUES: nat := 12

  /** The candidates of all listed venues, probed from `w` on, best rate first. */
  function Ranking(o: Order, w: World): (cands: seq<Candidate>)
    requires 0 < o.amountIn
    ensures AllUsable(cands, o.amountIn)
  {
    GatheredHonest(o, o.cfg.venues, |o.cfg.venues|, w);
    SortedKeepsUsable(Gathered(o, o.cfg.venues, |o.cfg.venues|, w).cands, o.amountIn);
    Sorted(Gathered(o, o.cfg.venues, |o.cfg.venues|, w).cands)
  }

  /** `_planSplit`: probe, rank, fill, and insist that no quote cost the router any of the token it holds. */
  function PlanSplit(o: Order, w: World): Result<Plan>
    requires 0 < o.amountIn
  {
    var plan := PlanFor(o, Ranking(o, w), Gathered(o, o.cfg.venues, |o.cfg.venues|, w).world);
    if Bal(plan.world, o.pair.tin, o.cfg.self) < Bal(w, o.pair.tin, o.cfg.self)
    then Err(QuoteBalanceInvariantViolated)
    else Ok(plan)
  }

  /** `_pullSplitFunds`. */
  function PullFunds(env: Env, cfg: Config, q: Request, w: World): Result<World> {
    var pair := ResolvedPair(q);
    if pair.tin == pair.tout then Err(IdenticalTokens)
    else if q.tokenIn == ETH_SENTINEL then
      if q.value != q.amountIn then Err(InvalidValue)
      else match Deposit(w, cfg.self, q.value)
           case None => Err(TransferFailed)
           case Some(v) => Ok(v)
    else if q.value != 0 then Err(InvalidValue)
    else match Pull(env, w, q.tokenIn, q.sender, cfg.self, q.amountIn)
         case None => Err(TransferFailed)
         case Some(v) => Ok(v)
  }

  /** `_collectVenues`: the whole whitelist, or nothing past the cap. */
  function Collected(venues: seq<Address>): Result<seq<Address>> {
    if |venues| > MAX_SPLIT_VENUES then Err(TooManyVenues) else Ok(venues)
  }

  /** `_validateSplitParams` and the checks around it. */
  function Admissible(cfg: Config, q: Request): Result<()> {
    if q.now > q.deadline then Err(Expired)
    else if q.amountIn == 0 then Err(ZeroAmount)
    else if q.amountIn > U128_MAX then Err(AmountTooLarge)
    else
      var _ :- Collected(cfg.venues);
      Ok(())
  }

  function RunFor(q: Request, amountOutMin: u256, payTo: Address): LegRun {
    LegRun(q.tokenIn, q.tokenOut, ResolvedPair(q), q.amountIn, amountOutMin, payTo, q.recipient, q.sender)
  }

  /** Ether sent with the call is credited, then the input is pulled. */
  function EnterAndPull(env: Env, cfg: Config, q: Request, w: World): Result<World> {
    var e :- Enter(cfg, q, w);
    PullFunds(env, cfg, q, e)
  }

  /** The order a request places. */
  function OrderFor(env: Env, cfg: Config, q: Request): Order { Order(env, cfg, ResolvedPair(q), q.amountIn) }

  /** The plan a request leads to, from the world its input was pulled into. */
  function PlanOf(env: Env, cfg: Config, q: Request, w: World): Result<Plan>
    requires 0 < q.amountIn
  {
    var v :- EnterAndPull(env, cfg, q, w);
    PlanSplit(OrderFor(env, cfg, q), v)
  }

  /** Pull, plan and execute, for a minimum and a payee of the entrypoint's choosing. */
  function PlanAndRun(env: Env, cfg: Config, q: Request, amountOutMin: u256, payTo: Address, w: World): Result<Tally>
    requires 0 < q.amountIn
  {
    var plan :- PlanOf(env, cfg, q, w);
    Execute(env, cfg, RunFor(q, amountOutMin, payTo), plan.legs, plan.world)
  }

  /** `swapSplitV1`. */
  function SwapSplit(env: Env, cfg: Config, q: Request, w: World): Result<Tally> {
    var _ :- Admissible(cfg, q);
    PlanAndRun(env, cfg, q, q.amountOutMin, q.recipient, w)
  }

  datatype FeeSplit = FeeSplit(tally: Tally, paid: Paid)

  /** `swapSplitWithFeeV1`. */
  function SwapSplitWithFee(env: Env, cfg: Config, q: Request, fee: Fee, w: World): Result<FeeSplit> {
    var _ :- CheckFee(fee);
    var _ :- Admissible(cfg, q);
    var grossMin :- GrossUp(q.amountOutMin, fee.bps);
    var t :- PlanAndRun(env, cfg, q, grossMin, cfg.self, w);
    var p :- Skim(env, cfg, q.tokenOut, t.delivered, fee, q.recipient, q.amountOutMin, t.world);
    Ok(FeeSplit(t, p))
  }

  // ----- Planning succeeds -----

  /** Where no quote costs the router any of the input token, planning cannot fail. */
  lemma QuietPlanningSucceeds(o: Order, w: World)
    requires 0 < o.amountIn && Quiet(o.env, o.pair.tin, o.cfg.self)
    ensures PlanSplit(o, w).Ok?
  {
    GatheringIsQuiet(o, o.cfg.venues, |o.cfg.venues|, w, o.pair.tin, o.cfg.self);
    PlanIsQuiet(o, Ranking(o, w), Gathered(o, o.cfg.venues, |o.cfg.venues|, w).world, o.pair.tin, o.cfg.self);
  }

  /** Once the input is pulled, a plan is found. */
  lemma QuietPlanIsFound(env: Env, cfg: Config, q: Request, w: World)
    requires 0 < q.amountIn && Quiet(env, ResolvedPair(q).tin, cfg.self)
    ensures PlanOf(env, cfg, q, w).Ok? <==> EnterAndPull(env, cfg, q, w).Ok?
  {
    var v := EnterAndPull(env, cfg, q, w);
    if v.Ok? { QuietPlanningSucceeds(OrderFor(env, cfg, q), v.value); }
  }

  /** The bracket catches a loss of any size: a venue's first answer, the reference quote or the re-quote that costs
      the router input token, with nobody making up for it, fails the plan. */
  lemma LossIsCaught(o: Order, w: World, k: nat)
    requires 0 < o.amountIn && Lasting(o.env, o.pair.tin, o.cfg.self, Bal(w, o.pair.tin, o.cfg.self))
    ensures var cands, pool := Ranking(o, w), Gathered(o, o.cfg.venues, |o.cfg.venues|, w).world;
      var tin, self, snap := o.pair.tin, o.cfg.self, Bal(w, o.pair.tin, o.cfg.self);
      && (k < |o.cfg.venues| && !Skipped(o, o.cfg.venues, k)
          && Short(FirstAnswered(o, o.cfg.venues[k], Gathered(o, o.cfg.venues, k, w).world), tin, self, snap)
          ==> PlanSplit(o, w) == Err(QuoteBalanceInvariantViolated))
      && (|cands| > 0
          && Short(Quoted(o.env, pool, o.cfg.fallback, o.pair, RefSize(cands, o.amountIn)).world, tin, self, snap)
          ==> PlanSplit(o, w) == Err(QuoteBalanceInvariantViolated))
      && (|cands| > 0 ==>
            var at := FillUnrefined(o, cands, 0, Start(o, cands, pool));
            Refines(cands, |at.legs|, at) && Short(Requote(o, at).world, tin, self, snap)
            ==> PlanSplit(o, w) == Err(QuoteBalanceInvariantViolated))
  {
    var venues, snap := o.cfg.venues, Bal(w, o.pair.tin, o.cfg.self);
    if k < |venues| && !Skipped(o, venues, k)
       && Short(FirstAnswered(o, venues[k], Gathered(o, venues, k, w).world), o.pair.tin, o.cfg.self, snap) {
      GatheringKeepsLoss(o, venues, |venues|, w, k, o.pair.tin, o.cfg.self, snap);
    }
    PlanKeepsLoss(o, Ranking(o, w), Gathered(o, venues, |venues|, w).world, o.pair.tin, o.cfg.self, snap);
  }

  // ----- What is accepted -----

  /** A split is admitted exactly in time, for 1 to 2^128 - 1 units, and with at most 12 venues listed. */
  lemma AdmissibleExactly(cfg: Config, q: Request)
    ensures Admissible(cfg, q).Ok? <==>
      q.now <= q.deadline && 1 <= q.amountIn <= 0xFFFF_FFFF_FFFF_FFFF_FFFF_FFFF_FFFF_FFFF && |cfg.venues| <= 12
  {}

  /** Past its deadline no split happens. */
  lemma LateSplitsFail(env: Env, cfg: Config, q: Request, fee: Fee, w: World)
    requires q.now > q.deadline
    ensures SwapSplit(env, cfg, q, w) == Err(Expired)
    ensures CheckFee(fee).Ok? ==> SwapSplitWithFee(env, cfg, q, fee, w) == Err(Expired)
    ensures SwapSplitWithFee(env, cfg, q, fee, w).Err?
  {}

  /** The pull succeeds exactly for two different tokens and the right ether, once that can be wrapped, or the caller
      has approved and holds the input. */
  lemma PullExactly(env: Env, cfg: Config, q: Request, w: World)
    requires q.sender != cfg.self
    ensures EnterAndPull(env, cfg, q, w).Ok? <==>
      && Enter(cfg, q, w).Ok? && ResolvedPair(q).tin != ResolvedPair(q).tout
      && q.value == (if q.tokenIn == ETH_SENTINEL then q.amountIn else 0)
      && var e := Enter(cfg, q, w).value;
      if q.tokenIn == ETH_SENTINEL then Deposit(e, cfg.self, q.value).Some?
      else
        && env.approved(e, q.tokenIn, q.sender, q.amountIn) && Bal(e, q.tokenIn, q.sender) >= q.amountIn
        && Bal(e, q.tokenIn, cfg.self) + q.amountIn <= U256_MAX
  {
    if Enter(cfg, q, w).Ok? { TransferMoves(Enter(cfg, q, w).value, q.tokenIn, q.sender, cfg.self, q.amountIn); }
  }

  // ----- Guarantees -----

  /** The pull debits the caller `amountIn` of the token it named, once, and leaves the router holding that much
      more of the token it will sell. */
  lemma PullEffect(env: Env, cfg: Config, q: Request, w: World)
    requires EnterAndPull(env, cfg, q, w).Ok?
    ensures var v, pair := EnterAndPull(env, cfg, q, w).value, ResolvedPair(q);
      && pair.tin != pair.tout && pair.tin != ETH_SENTINEL && pair.tout != ETH_SENTINEL
      && q.value == (if q.tokenIn == ETH_SENTINEL then q.amountIn else 0)
      && (q.sender != cfg.self ==>
            && Bal(v, pair.tin, cfg.self) == Bal(w, pair.tin, cfg.self) + q.amountIn
            && (q.sender != WETH ==> Bal(v, q.tokenIn, q.sender) == Bal(w, q.tokenIn, q.sender) - q.amountIn))
  {
    TransferMoves(w, ETH_SENTINEL, q.sender, cfg.self, q.value);
    var e := Enter(cfg, q, w).value;
    if q.tokenIn == ETH_SENTINEL { DepositWraps(e, cfg.self, q.value); }
    TransferMoves(e, q.tokenIn, q.sender, cfg.self, q.amountIn);
  }

  /** The ranking holds honest candidates only, best rate first. */
  lemma RankingHonest(o: Order, w: World)
    requires 0 < o.amountIn
    ensures Ranked(Ranking(o, w)) && |Ranking(o, w)| <= |o.cfg.venues|
    ensures forall i :: 0 <= i < |Ranking(o, w)| ==>
      Honest(o, o.cfg.venues, |o.cfg.venues|, w, Ranking(o, w)[i])
  {
    var pool, cands := Gathered(o, o.cfg.venues, |o.cfg.venues|, w).cands, Ranking(o, w);
    GatheredHonest(o, o.cfg.venues, |o.cfg.venues|, w);
    SortedIsRankedPermutation(pool);
    forall i | 0 <= i < |cands|
      ensures Honest(o, o.cfg.venues, |o.cfg.venues|, w, cands[i])
    {
      assert cands[i] in multiset(cands);
      assert cands[i] in pool;
    }
  }

  /** Every listed venue that is due a turn is in the ranking with exactly what its own answers make of it. */
  lemma RankingExact(o: Order, w: World, k: nat, fill: u256, out: u256)
    requires 0 < o.amountIn && k < |o.cfg.venues| && !Skipped(o, o.cfg.venues, k)
    ensures Candidate(o.cfg.venues[k], fill, out) in Ranking(o, w) <==>
      Offers(o, o.cfg.venues[k], Gathered(o, o.cfg.venues, k, w).world, fill, out)
  {
    var n, c := |o.cfg.venues|, Candidate(o.cfg.venues[k], fill, out);
    var pool := Gathered(o, o.cfg.venues, n, w).cands;
    GatheredHonest(o, o.cfg.venues, n, w);
    SortedIsRankedPermutation(pool);
    assert c in multiset(Ranking(o, w)) <==> c in multiset(pool);
    GatheredExactly(o, o.cfg.venues, n, w, k, fill, out);
  }

  /** The plan of a split: its shape, and that planning fails for no reason but the balance bracket. */
  lemma PlanSplitShape(o: Order, w: World) returns (m: nat)
    requires 0 < o.amountIn
    ensures PlanSplit(o, w).Err? ==> PlanSplit(o, w).error == QuoteBalanceInvariantViolated
    ensures PlanSplit(o, w).Ok? ==> var plan := PlanSplit(o, w).value;
      && WellShaped(o.cfg, Ranking(o, w), o.amountIn, plan.legs, m)
      && 0 < |plan.legs| <= MAX_LEGS + 1
      && Bal(plan.world, o.pair.tin, o.cfg.self) >= Bal(w, o.pair.tin, o.cfg.self)
  {
    m := PlanShape(o, Ranking(o, w), Gathered(o, o.cfg.venues, |o.cfg.venues|, w).world);
  }

  /** What a successful run kept. `planned` is the world the legs started from, `t` the run before unwrapping. */
  ghost predicate Accounted(env: Env, cfg: Config, q: Request, payTo: Address, planned: World, t: Tally, x: Tally) {
    var tout := ResolvedPair(q).tout;
    && q.value == (if q.tokenIn == ETH_SENTINEL then q.amountIn else 0)
    && SumIn(x.events) == q.amountIn
    && SumOut(x.events) == x.delivered
    && |x.events| <= MAX_LEGS + 1
    && (q.tokenOut != ETH_SENTINEL ==> Bal(x.world, tout, payTo) == Bal(planned, tout, payTo) + x.delivered)
    && (q.tokenOut == ETH_SENTINEL ==>
          && Bal(x.world, WETH, cfg.self) == Bal(planned, WETH, cfg.self)
          && Bal(t.world, WETH, cfg.self) == Bal(planned, WETH, cfg.self) + x.delivered
          && (payTo != WETH && cfg.self != WETH ==>
                Bal(x.world, ETH_SENTINEL, payTo) == Bal(t.world, ETH_SENTINEL, payTo) + x.delivered))
  }

  lemma ExecutionKeeps(env: Env, cfg: Config, q: Request, min: u256, payTo: Address, legs: seq<Leg>, m: nat, w: World)
    returns (t: Tally)
    requires ResolvedPair(q).tin != ResolvedPair(q).tout && ResolvedPair(q).tin != ETH_SENTINEL
    requires q.value == (if q.tokenIn == ETH_SENTINEL then q.amountIn else 0)
    requires m <= MAX_LEGS && forall k :: m <= k < |legs| ==> legs[k].venue == cfg.fallback
    requires |legs| > 0 && Total(legs) == q.amountIn
    ensures var r := Execute(env, cfg, RunFor(q, min, payTo), legs, w);
      && r != Err(SplitAllocationMismatch)
      && (r.Ok? ==>
            && Settled(env, cfg, RunFor(q, min, payTo), legs, w, t)
            && Accounted(env, cfg, q, payTo, w, t, r.value) && r.value.delivered >= min
            && (Contained(env, cfg.self) ==>
                  var tin := ResolvedPair(q).tin;
                  Bal(r.value.world, tin, cfg.self) >= Bal(w, tin, cfg.self) - q.amountIn))
  {
    t := Tally(w, 0, 0, []);
    if Execute(env, cfg, RunFor(q, min, payTo), legs, w).Ok? {
      t := ExecuteGuarantees(env, cfg, RunFor(q, min, payTo), legs, m, w);
      SettledAccounts(env, cfg, RunFor(q, min, payTo), legs, w, t);
    } else {
      NoMismatch(env, cfg, RunFor(q, min, payTo), legs, w);
    }
  }

  lemma NoMismatch(env: Env, cfg: Config, r: LegRun, legs: seq<Leg>, w: World)
    requires |legs| > 0 && Total(legs) == r.totalIn
    ensures Execute(env, cfg, r, legs, w) != Err(SplitAllocationMismatch)
  {
    LaterErrors(env, cfg, r, legs, w);
  }

  /** What can go wrong once the loop has run. */
  lemma LaterErrors(env: Env, cfg: Config, r: LegRun, legs: seq<Leg>, w: World)
    requires Total(legs) <= U256_MAX
    ensures var u := RunFallback(env, cfg, r, RunLegs(env, cfg, r, legs, |legs|, w));
      && (u.Err? ==> u.error in {FallbackReverted, Panic, InsufficientOutput})
      && (u.Ok? ==>
            var s := SendWrapped(env, cfg, u.value.world, r.payTo, u.value.delivered);
            s.Err? ==> s.error in {TransferFailed, EthTransferFailed})
  {}

  /** The plan of a request: its shape, and what planning left of the router's input token. */
  lemma PlanOfShape(env: Env, cfg: Config, q: Request, w: World) returns (m: nat)
    requires 0 < q.amountIn
    ensures PlanOf(env, cfg, q, w).Ok? ==> var plan, pair := PlanOf(env, cfg, q, w).value, ResolvedPair(q);
      && EnterAndPull(env, cfg, q, w).Ok?
      && pair.tin != pair.tout && pair.tin != ETH_SENTINEL
      && q.value == (if q.tokenIn == ETH_SENTINEL then q.amountIn else 0)
      && WellShaped(cfg, Ranking(OrderFor(env, cfg, q), EnterAndPull(env, cfg, q, w).value), q.amountIn, plan.legs, m)
      && 0 < |plan.legs|
      && (q.sender != cfg.self ==> Bal(plan.world, pair.tin, cfg.self) >= Bal(w, pair.tin, cfg.self) + q.amountIn)
  {
    m := 0;
    var pulled := EnterAndPull(env, cfg, q, w);
    if pulled.Ok? {
      PullEffect(env, cfg, q, w);
      m := PlanSplitShape(OrderFor(env, cfg, q), pulled.value);
    }
  }

  lemma PlanningErrors(env: Env, cfg: Config, q: Request, w: World)
    requires 0 < q.amountIn
    ensures PlanOf(env, cfg, q, w) != Err(SplitAllocationMismatch) && PlanOf(env, cfg, q, w) != Err(TooManyVenues)
  {
    var pulled := EnterAndPull(env, cfg, q, w);
    assert pulled != Err(SplitAllocationMismatch) && pulled != Err(TooManyVenues);
    if pulled.Ok? { var m := PlanSplitShape(OrderFor(env, cfg, q), pulled.value); }
  }

  /** Pull to payout, for any venue answers, fills, under-deliveries and reverts: the allocation check never fires,
      and a run that succeeds accounts for every unit in and out, from the world its plan was made in, and leaves the
      router's input token whole. `t` is the run of the plan's legs before any unwrapping. */
  lemma RunGuarantees(env: Env, cfg: Config, q: Request, min: u256, payTo: Address, w: World) returns (t: Tally)
    requires 0 < q.amountIn
    ensures PlanAndRun(env, cfg, q, min, payTo, w) != Err(SplitAllocationMismatch)
    ensures PlanAndRun(env, cfg, q, min, payTo, w).Ok? ==> PlanOf(env, cfg, q, w).Ok?
    ensures PlanAndRun(env, cfg, q, min, payTo, w).Ok? ==>
      var plan := PlanOf(env, cfg, q, w).value;
      var x, tin := PlanAndRun(env, cfg, q, min, payTo, w).value, ResolvedPair(q).tin;
      && Settled(env, cfg, RunFor(q, min, payTo), plan.legs, plan.world, t)
      && Accounted(env, cfg, q, payTo, plan.world, t, x) && x.delivered >= min
      && (Contained(env, cfg.self) && q.sender != cfg.self ==> Bal(x.world, tin, cfg.self) >= Bal(w, tin, cfg.self))
  {
    t := Tally(w, 0, 0, []);
    var plan := PlanOf(env, cfg, q, w);
    PlanningErrors(env, cfg, q, w);
    if plan.Ok? {
      var m := PlanOfShape(env, cfg, q, w);
      t := ExecutionKeeps(env, cfg, q, min, payTo, plan.value.legs, m, plan.value.world);
    }
  }

  /** Where quotes are quiet and the input has been pulled, a split succeeds exactly when the fallback delivers what the
      venues left to it, or they left it nothing and delivered the minimum, and native output can be unwrapped. */
  lemma SplitSucceedsExactly(env: Env, cfg: Config, q: Request, w: World)
    requires Admissible(cfg, q).Ok? && Quiet(env, ResolvedPair(q).tin, cfg.self)
    ensures EnterAndPull(env, cfg, q, w).Ok? ==>
      && PlanOf(env, cfg, q, w).Ok? && Total(PlanOf(env, cfg, q, w).value.legs) == q.amountIn
      && var plan, r := PlanOf(env, cfg, q, w).value, RunFor(q, q.amountOutMin, q.recipient);
      SwapSplit(env, cfg, q, w).Ok? <==> Executes(env, cfg, r, plan.legs, plan.world)
  {
    QuietPlanIsFound(env, cfg, q, w);
    if EnterAndPull(env, cfg, q, w).Ok? {
      var m := PlanOfShape(env, cfg, q, w);
      var plan := PlanOf(env, cfg, q, w).value;
      ExecuteExactly(env, cfg, RunFor(q, q.amountOutMin, q.recipient), plan.legs, plan.world);
    }
  }

  /** Where every venue of the plan delivers, a successful split reports the plan: one event a leg, in its order. */
  lemma DeliveredPlanIsReported(env: Env, cfg: Config, q: Request, min: u256, payTo: Address, w: World)
    requires 0 < q.amountIn
    ensures PlanAndRun(env, cfg, q, min, payTo, w).Ok? ==>
      && PlanOf(env, cfg, q, w).Ok? && Total(PlanOf(env, cfg, q, w).value.legs) <= U256_MAX
      && var plan, events := PlanOf(env, cfg, q, w).value, PlanAndRun(env, cfg, q, min, payTo, w).value.events;
      AllDeliver(env, cfg, RunFor(q, min, payTo), plan.legs, plan.world) ==>
        |events| == |plan.legs| && Reports(events, plan.legs)
  {
    if PlanAndRun(env, cfg, q, min, payTo, w).Err? { return; }
    var plan := PlanOf(env, cfg, q, w).value;
    var m := PlanOfShape(env, cfg, q, w);
    RankingHonest(OrderFor(env, cfg, q), EnterAndPull(env, cfg, q, w).value);
    DeliveredLegsAreReported(env, cfg, RunFor(q, min, payTo), plan.legs, m, plan.world);
  }

  /** The events name the sender, recipient and tokens of the request. */
  ghost predicate NameTheRequest(events: seq<Swapped>, q: Request) {
    forall i :: 0 <= i < |events| ==>
      && events[i].sender == q.sender && events[i].recipient == q.recipient
      && events[i].tokenIn == q.tokenIn && events[i].tokenOut == q.tokenOut
  }

  /** What the caller of a split gets: the minimum or more, to the recipient, reported under the swap's own name. */
  lemma SplitPaysRecipient(env: Env, cfg: Config, q: Request, w: World) returns (t: Tally)
    ensures SwapSplit(env, cfg, q, w).Ok? ==>
      && Admissible(cfg, q).Ok? && PlanOf(env, cfg, q, w).Ok?
      && var x, planned := SwapSplit(env, cfg, q, w).value, PlanOf(env, cfg, q, w).value.world;
      && x.delivered >= q.amountOutMin && Accounted(env, cfg, q, q.recipient, planned, t, x)
      && NameTheRequest(x.events, q)
  {
    t := Tally(w, 0, 0, []);
    if SwapSplit(env, cfg, q, w).Ok? {
      t := RunGuarantees(env, cfg, q, q.amountOutMin, q.recipient, w);
      var plan := PlanOf(env, cfg, q, w).value;
      ExecutedEventsName(env, cfg, RunFor(q, q.amountOutMin, q.recipient), plan.legs, plan.world);
    }
  }

  /** A venue's event honours a quote: at most the candidate's fill, at no worse than its quoted rate, rounded down. */
  ghost predicate Honours(e: Swapped, c: Candidate) {
    0 < c.fill && e.marketMaker == c.venue && e.amountIn <= c.fill && e.amountOut >= ProRata(c.out, c.fill, e.amountIn)
  }

  /** The event reports a candidate of the ranking at the `k`-th place, which was its venue's own answer in the
      probing that began in `v`, at its quoted rate or better. */
  ghost predicate HonoursQuote(o: Order, v: World, e: Swapped, k: nat)
    requires 0 < o.amountIn
  {
    var cands := Ranking(o, v);
    k < |cands| && Honest(o, o.cfg.venues, |o.cfg.venues|, v, cands[k]) && Honours(e, cands[k])
  }

  /** Planning and execution meet: in a successful split every event but the fallback's is a venue filling, at its
      quoted rate or better, part of what it answered when probed with the pulled funds in hand. */
  lemma EventsHonourQuotes(env: Env, cfg: Config, q: Request, min: u256, payTo: Address, w: World, i: nat)
    returns (k: nat)
    requires 0 < q.amountIn
    ensures var r := PlanAndRun(env, cfg, q, min, payTo, w);
      r.Ok? && i < |r.value.events| ==>
        var e, v := r.value.events[i], EnterAndPull(env, cfg, q, w).value;
        e.marketMaker == cfg.fallback || HonoursQuote(OrderFor(env, cfg, q), v, e, k)
  {
    k := 0;
    var r := PlanAndRun(env, cfg, q, min, payTo, w);
    if r.Err? || i >= |r.value.events| { return; }
    var o, v, plan := OrderFor(env, cfg, q), EnterAndPull(env, cfg, q, w).value, PlanOf(env, cfg, q, w).value;
    var m := PlanOfShape(env, cfg, q, w);
    k := EventHonoursLeg(env, cfg, RunFor(q, min, payTo), plan.legs, plan.world, i);
    if r.value.events[i].marketMaker != cfg.fallback {
      LegHonoursQuote(o, v, plan.legs, m, r.value.events[i], k);
    }
  }

  lemma LegHonoursQuote(o: Order, v: World, legs: seq<Leg>, m: nat, e: Swapped, k: nat)
    requires 0 < o.amountIn && WellShaped(o.cfg, Ranking(o, v), o.amountIn, legs, m)
    requires k < |legs| && legs[k].venue != o.cfg.fallback && Fills(e, legs[k])
    ensures HonoursQuote(o, v, e, k)
  {
    RankingHonest(o, v);
    assert k < m && Carved(legs[k], Ranking(o, v)[k]);
  }

  lemma EventHonoursLeg(env: Env, cfg: Config, r: LegRun, legs: seq<Leg>, w: World, i: nat) returns (k: nat)
    requires Execute(env, cfg, r, legs, w).Ok? && i < |Execute(env, cfg, r, legs, w).value.events|
    ensures var e := Execute(env, cfg, r, legs, w).value.events[i];
      e.marketMaker == cfg.fallback || (k < |legs| && legs[k].venue != cfg.fallback && Fills(e, legs[k]))
  {
    k := 0;
    var t := ExecuteSettles(env, cfg, r, legs, w);
    if i < |RunLegs(env, cfg, r, legs, |legs|, w).events| {
      k := EventsFillLegs(env, cfg, r, legs, |legs|, w, i);
    }
  }

  /** Nothing of the gross stays in the router: its output token is back where planning left it, or, for native
      ether, its WETH is, and its ether is back where the legs left it. */
  ghost predicate GrossGone(cfg: Config, tokenOut: Address, planned: World, settled: World, end: World) {
    if tokenOut == ETH_SENTINEL then
      && Bal(end, WETH, cfg.self) == Bal(planned, WETH, cfg.self)
      && (cfg.self != WETH ==> Bal(end, ETH_SENTINEL, cfg.self) == Bal(settled, ETH_SENTINEL, cfg.self))
    else
      Bal(end, tokenOut, cfg.self) == Bal(planned, tokenOut, cfg.self)
  }

  /** The fee variant: the recipient nets at least the minimum, net plus fee is what the events report, both are
      credited, and the gross stays with nobody. `settled` is the run of the plan's legs before any unwrapping. */
  lemma FeeSplitGuarantees(env: Env, cfg: Config, q: Request, fee: Fee, w: World) returns (settled: Tally)
    ensures SwapSplitWithFee(env, cfg, q, fee, w).Ok? ==>
      var r := SwapSplitWithFee(env, cfg, q, fee, w).value;
      && r.paid.net >= q.amountOutMin
      && r.paid.fee == FeeOn(SumOut(r.tally.events), fee.bps)
      && SumIn(r.tally.events) == q.amountIn && |r.tally.events| <= MAX_LEGS + 1
      && NameTheRequest(r.tally.events, q)
      && (q.recipient != cfg.self ==> r.paid.net + r.paid.fee == SumOut(r.tally.events))
      && PlanOf(env, cfg, q, w).Ok?
      && var plan := PlanOf(env, cfg, q, w).value;
      && Settled(env, cfg, RunFor(q, Gross(q.amountOutMin, fee.bps), cfg.self), plan.legs, plan.world, settled)
      && (q.recipient != cfg.self && fee.recipient != cfg.self ==>
            && Disbursed(cfg, q.tokenOut, SumOut(r.tally.events), fee.recipient, q.recipient, r.tally.world, r.paid)
            && GrossGone(cfg, q.tokenOut, plan.world, settled.world, r.paid.world))
  {
    settled := Tally(w, 0, 0, []);
    if SwapSplitWithFee(env, cfg, q, fee, w).Err? { return; }
    var gross := GrossUp(q.amountOutMin, fee.bps).value;
    settled := RunGuarantees(env, cfg, q, gross, cfg.self, w);
    var plan := PlanOf(env, cfg, q, w).value;
    ExecutedEventsName(env, cfg, RunFor(q, gross, cfg.self), plan.legs, plan.world);
    var t := PlanAndRun(env, cfg, q, gross, cfg.self, w).value;
    SkimConserves(env, cfg, q.tokenOut, t.delivered, fee, q.recipient, q.amountOutMin, t.world);
    if q.tokenOut == ETH_SENTINEL {
      SkimKeeps(env, cfg, q.tokenOut, t.delivered, fee, q.recipient, q.amountOutMin, t.world, WETH, cfg.self);
    }
  }

  /** After a run that met the grossed-up minimum, the skim's own minimum check fires exactly for an ERC-20 output
      addressed to the router itself. */
  lemma FeeSplitNeverShortsTheNet(env: Env, cfg: Config, q: Request, fee: Fee, w: World)
    requires Admissible(cfg, q).Ok? && fee.bps <= MAX_FEE_BPS
    requires GrossUp(q.amountOutMin, fee.bps).Ok?
    ensures var r := PlanAndRun(env, cfg, q, GrossUp(q.amountOutMin, fee.bps).value, cfg.self, w);
      r.Ok? ==> var t := r.value;
      var s := Skim(env, cfg, q.tokenOut, t.delivered, fee, q.recipient, q.amountOutMin, t.world);
      t.delivered * fee.bps <= U256_MAX && s != Err(TransferFailed) ==>
        (s == Err(InsufficientOutput) <==>
           q.tokenOut != ETH_SENTINEL && q.recipient == cfg.self && 0 < q.amountOutMin)
  {
    var gross := GrossUp(q.amountOutMin, fee.bps).value;
    if PlanAndRun(env, cfg, q, gross, cfg.self, w).Err? { return; }
    var settled := RunGuarantees(env, cfg, q, gross, cfg.self, w);
    var t := PlanAndRun(env, cfg, q, gross, cfg.self, w).value;
    var s := Skim(env, cfg, q.tokenOut, t.delivered, fee, q.recipient, q.amountOutMin, t.world);
    if t.delivered * fee.bps <= U256_MAX && s != Err(TransferFailed) {
      SkimMinimumFailsOnlyForSelf(env, cfg, q.tokenOut, t.delivered, fee, q.recipient, q.amountOutMin, t.world);
    }
  }

  /** The fee variant succeeds exactly when its run does, for payees that take the output. */
  lemma FeeSplitSucceedsExactly(env: Env, cfg: Config, q: Request, fee: Fee, w: World)
    requires CheckFee(fee).Ok? && Admissible(cfg, q).Ok? && GrossUp(q.amountOutMin, fee.bps).Ok?
    requires q.recipient != cfg.self && cfg.self != WETH
    requires Payable(env, cfg, q.tokenOut, q.recipient) && Payable(env, cfg, q.tokenOut, fee.recipient)
    ensures var r := PlanAndRun(env, cfg, q, Gross(q.amountOutMin, fee.bps), cfg.self, w);
      SwapSplitWithFee(env, cfg, q, fee, w).Ok? ==> r.Ok?
    ensures var r := PlanAndRun(env, cfg, q, Gross(q.amountOutMin, fee.bps), cfg.self, w);
      && r.Ok? && r.value.delivered * fee.bps <= U256_MAX
      && Bal(r.value.world, q.tokenOut, q.recipient) + r.value.delivered <= U256_MAX
      && Bal(r.value.world, q.tokenOut, fee.recipient) + r.value.delivered <= U256_MAX
      ==> SwapSplitWithFee(env, cfg, q, fee, w).Ok?
  {
    var gross: u256 := Gross(q.amountOutMin, fee.bps);
    var r := PlanAndRun(env, cfg, q, gross, cfg.self, w);
    if r.Ok? && r.value.delivered * fee.bps <= U256_MAX
       && Bal(r.value.world, q.tokenOut, q.recipient) + r.value.delivered <= U256_MAX
       && Bal(r.value.world, q.tokenOut, fee.recipient) + r.value.delivered <= U256_MAX {
      var settled := RunGuarantees(env, cfg, q, gross, cfg.self, w);
      SkimSucceeds(env, cfg, q.tokenOut, r.value.delivered, fee, q.recipient, q.amountOutMin, r.value.world);
    }
  }

  /** Past the cap every split fails; within it none fails for the cap. */
  lemma CapStopsSplits(env: Env, cfg: Config, q: Request, fee: Fee, w: World)
    ensures Collected(cfg.venues).Err? ==>
      SwapSplit(env, cfg, q, w).Err? && SwapSplitWithFee(env, cfg, q, fee, w).Err?
    ensures Collected(cfg.venues).Ok? ==>
      SwapSplit(env, cfg, q, w) != Err(TooManyVenues) && SwapSplitWithFee(env, cfg, q, fee, w) != Err(TooManyVenues)
  {
    if Admissible(cfg, q).Ok? {
      RunIsNotCapped(env, cfg, q, q.amountOutMin, q.recipient, w);
      if CheckFee(fee).Ok? && GrossUp(q.amountOutMin, fee.bps).Ok? {
        var gross := GrossUp(q.amountOutMin, fee.bps).value;
        RunIsNotCapped(env, cfg, q, gross, cfg.self, w);
        if PlanAndRun(env, cfg, q, gross, cfg.self, w).Ok? {
          var t := PlanAndRun(env, cfg, q, gross, cfg.self, w).value;
          SkimIsNotCapped(env, cfg, q.tokenOut, t.delivered, fee, q.recipient, q.amountOutMin, t.world);
        }
      }
    }
  }

  lemma SkimIsNotCapped(env: Env, cfg: Config, tokenOut: Address, delivered: u256, fee: Fee, recipient: Address,
                        amountOutMin: u256, w: World)
    requires fee.bps <= MAX_FEE_BPS
    ensures Skim(env, cfg, tokenOut, delivered, fee, recipient, amountOutMin, w) != Err(TooManyVenues)
  {}

  lemma RunIsNotCapped(env: Env, cfg: Config, q: Request, min: u256, payTo: Address, w: World)
    requires 0 < q.amountIn
    ensures PlanAndRun(env, cfg, q, min, payTo, w) != Err(TooManyVenues)
  {
    PlanningErrors(env, cfg, q, w);
    var plan := PlanOf(env, cfg, q, w);
    if plan.Ok? { ExecuteIsNotCapped(env, cfg, RunFor(q, min, payTo), plan.value.legs, plan.value.world); }
  }

  lemma ExecuteIsNotCapped(env: Env, cfg: Config, r: LegRun, legs: seq<Leg>, w: World)
    ensures Execute(env, cfg, r, legs, w) != Err(TooManyVenues)
  {
    if Total(legs) <= U256_MAX { LaterErrors(env, cfg, r, legs, w); }
  }
}
