/** Frontend fees: the gross-up of a net minimum, and the skim that must honour it. */
module Fees {
  import opened Arith
  import opened Chain
  import opened Legs
  import opened SplitPlanner

  const MAX_FEE_BPS: nat := 100

  datatype Fee = Fee(bps: nat, recipient: Address)

  function CheckFee(fee: Fee): Result<()> {
    if fee.bps > MAX_FEE_BPS then Err(FeeBpsTooHigh)
    else if fee.recipient == ZERO then Err(ZeroAddress)
    else Ok(())
  }

  /** A fee is accepted exactly if it is at most 1% and has a recipient. */
  lemma CheckFeeExactly(fee: Fee)
    ensures CheckFee(fee).Ok? <==> fee.bps <= 100 && fee.recipient != ZERO
  {}

  function CeilDiv(a: nat, b: nat): nat
    requires 0 < b
  {
    if a == 0 then 0 else (a - 1) / b + 1
  }

  /** The gross minimum, as a number. */
  function Gross(net: nat, bps: nat): nat
    requires bps <= MAX_FEE_BPS
  {
    CeilDiv(net * BPS, BPS - bps)
  }

  /** `_grossUp`: the product may overflow a `uint256`, which reverts. */
  function GrossUp(net: u256, bps: nat): (r: Result<u256>)
    requires bps <= MAX_FEE_BPS
    ensures if net * BPS <= U256_MAX then r == Ok(Gross(net, bps)) else r == Err(Panic)
  {
    if net * BPS > U256_MAX then Err(Panic)
    else
      CeilDivBounds(net * BPS, BPS - bps);
      Ok(Gross(net, bps))
  }

  /** The floored fee. */
  function FeeOn(amount: nat, bps: nat): nat { amount * bps / BPS }

  function Kept(amount: nat, bps: nat): int { amount - FeeOn(amount, bps) }

  lemma CeilDivBounds(a: nat, b: nat)
    requires 0 < b
    ensures a <= CeilDiv(a, b) * b < a + b
    ensures CeilDiv(a, b) <= a
  {
    if a > 0 {
      var q, m := (a - 1) / b, (a - 1) % b;
      assert q * b + m == a - 1;
      assert (q + 1) * b == q * b + b;
      MulMono(1, b, q);
    }
  }

  lemma FeeBounds(amount: nat, bps: nat)
    requires bps <= MAX_FEE_BPS
    ensures FeeOn(amount, bps) * BPS <= amount * bps < FeeOn(amount, bps) * BPS + BPS
    ensures 0 <= FeeOn(amount, bps) <= amount
  {
    assert amount * bps == FeeOn(amount, bps) * BPS + (amount * bps) % BPS;
    MulMono(bps, BPS, amount);
  }

  /** Delivering the grossed-up minimum or more always leaves the net minimum, and no delivery that leaves it is
      more than 2 units smaller than the grossed-up minimum. */
  lemma GrossUpIsSufficientAndTight(net: nat, bps: nat, delivered: nat)
    requires bps <= MAX_FEE_BPS
    ensures delivered >= Gross(net, bps) ==> Kept(delivered, bps) >= net
    ensures Kept(delivered, bps) >= net ==> Gross(net, bps) <= delivered + 2
  {
    var d, g := BPS - bps, Gross(net, bps);
    CeilDivBounds(net * BPS, d);
    FeeBounds(delivered, bps);
    assert delivered * bps + delivered * d == delivered * BPS;
    if delivered >= g { MulMono(g, delivered, d); }
    if Kept(delivered, bps) >= net && g > delivered + 2 {
      MulMono(delivered + 3, g, d);
    }
  }

  /** The slack of 2 is reached: at 3 bps a net minimum of 3333 is met by a delivery of 3333, yet 3335 is asked. */
  lemma GrossUpSlackIsReached()
    ensures Gross(3333, 3) == 3335 && Kept(3333, 3) == 3333
  {}

  datatype Paid = Paid(world: World, net: u256, fee: u256)

  /** One payout of the skim; nothing is sent for a zero amount. */
  function PayOut(env: Env, cfg: Config, token: Address, w: World, to: Address, amount: u256): Option<World> {
    if amount == 0 then Some(w)
    else if token == ETH_SENTINEL then PayEth(env, cfg, w, to, amount)
    else Transfer(w, token, cfg.self, to, amount)
  }

  /** `_skimAndDisburse`. */
  function Skim(env: Env, cfg: Config, tokenOut: Address, delivered: u256, fee: Fee, recipient: Address,
                amountOutMin: u256, w: World): Result<Paid>
    requires fee.bps <= MAX_FEE_BPS
  {
    if delivered * fee.bps > U256_MAX then Err(Panic)
    else
      FeeBounds(delivered, fee.bps);
      var feeAmt: u256 := FeeOn(delivered, fee.bps);
      var net: u256 := delivered - feeAmt;
      var charged := PayOut(env, cfg, tokenOut, w, fee.recipient, feeAmt);
      if charged.None? then Err(TransferFailed)
      else
        var paid := PayOut(env, cfg, tokenOut, charged.value, recipient, net);
        if paid.None? then Err(TransferFailed)
        else
          var before, after := Bal(charged.value, tokenOut, recipient), Bal(paid.value, tokenOut, recipient);
          if tokenOut != ETH_SENTINEL && after < before then Err(Panic)
          else
            var received: u256 := if tokenOut == ETH_SENTINEL then net else after - before;
            if received < amountOutMin then Err(InsufficientOutput) else Ok(Paid(paid.value, received, feeAmt))
  }

  /** All of `delivered` has left the router, the fee to its recipient and the net to the other (or both to one). */
  ghost predicate Disbursed(cfg: Config, tokenOut: Address, delivered: int, feeTo: Address, netTo: Address, w: World,
                            p: Paid)
  {
    && Bal(p.world, tokenOut, cfg.self) == Bal(w, tokenOut, cfg.self) - delivered
    && Bal(p.world, tokenOut, netTo) == Bal(w, tokenOut, netTo) + (if netTo == feeTo then delivered else p.net)
    && (netTo != feeTo ==> Bal(p.world, tokenOut, feeTo) == Bal(w, tokenOut, feeTo) + p.fee)
  }

  /** Whatever was delivered is split into the floored fee and the net, with nothing left behind, unless the router
      itself is named as a recipient. */
  lemma SkimConserves(env: Env, cfg: Config, tokenOut: Address, delivered: u256, fee: Fee, recipient: Address,
                      amountOutMin: u256, w: World)
    requires fee.bps <= MAX_FEE_BPS
    requires Skim(env, cfg, tokenOut, delivered, fee, recipient, amountOutMin, w).Ok?
    ensures var p := Skim(env, cfg, tokenOut, delivered, fee, recipient, amountOutMin, w).value;
      && p.net >= amountOutMin && p.fee == FeeOn(delivered, fee.bps)
      && (recipient != cfg.self ==> p.net + p.fee == delivered)
      && (recipient != cfg.self && fee.recipient != cfg.self ==>
            Disbursed(cfg, tokenOut, delivered, fee.recipient, recipient, w, p))
  {
    FeeBounds(delivered, fee.bps);
    var feeAmt := FeeOn(delivered, fee.bps);
    var net: u256 := delivered - feeAmt;
    PayOutMoves(env, cfg, tokenOut, w, fee.recipient, feeAmt);
    PayOutMoves(env, cfg, tokenOut, PayOut(env, cfg, tokenOut, w, fee.recipient, feeAmt).value, recipient, net);
  }

  lemma PayOutMoves(env: Env, cfg: Config, token: Address, w: World, to: Address, amount: u256)
    ensures PayOut(env, cfg, token, w, to, amount).Some? ==>
      forall a :: Bal(PayOut(env, cfg, token, w, to, amount).value, token, a) ==
        Moved(Bal(w, token, a), a, cfg.self, to, amount)
  {
    TransferMoves(w, token, cfg.self, to, amount);
  }

  /** This payee takes any amount of the token. */
  ghost predicate Payable(env: Env, cfg: Config, token: Address, to: Address) {
    token == ETH_SENTINEL ==> to != cfg.self && forall w, x :: env.acceptsEth(w, to, x)
  }

  lemma PayOutSucceeds(env: Env, cfg: Config, token: Address, w: World, to: Address, amount: u256)
    requires Payable(env, cfg, token, to)
    requires Bal(w, token, cfg.self) >= amount && Bal(w, token, to) + amount <= U256_MAX
    ensures PayOut(env, cfg, token, w, to, amount).Some?
  {
    TransferMoves(w, token, cfg.self, to, amount);
  }

  /** A skim of what the router holds, grossed up beforehand, succeeds for payees that take it. */
  lemma SkimSucceeds(env: Env, cfg: Config, tokenOut: Address, delivered: u256, fee: Fee, recipient: Address,
                     amountOutMin: u256, w: World)
    requires fee.bps <= MAX_FEE_BPS && delivered >= Gross(amountOutMin, fee.bps) && delivered * fee.bps <= U256_MAX
    requires recipient != cfg.self && Bal(w, tokenOut, cfg.self) >= delivered
    requires Payable(env, cfg, tokenOut, recipient) && Bal(w, tokenOut, recipient) + delivered <= U256_MAX
    requires Payable(env, cfg, tokenOut, fee.recipient) && Bal(w, tokenOut, fee.recipient) + delivered <= U256_MAX
    ensures Skim(env, cfg, tokenOut, delivered, fee, recipient, amountOutMin, w).Ok?
  {
    FeeBounds(delivered, fee.bps);
    GrossUpIsSufficientAndTight(amountOutMin, fee.bps, delivered);
    var feeAmt := FeeOn(delivered, fee.bps);
    PayOutSucceeds(env, cfg, tokenOut, w, fee.recipient, feeAmt);
    PayOutMoves(env, cfg, tokenOut, w, fee.recipient, feeAmt);
    var charged := PayOut(env, cfg, tokenOut, w, fee.recipient, feeAmt).value;
    PayOutSucceeds(env, cfg, tokenOut, charged, recipient, delivered - feeAmt);
    PayOutMoves(env, cfg, tokenOut, charged, recipient, delivered - feeAmt);
  }

  lemma PayOutKeeps(env: Env, cfg: Config, token: Address, w: World, to: Address, amount: u256, other: Address,
                    who: Address)
    requires other != token
    ensures PayOut(env, cfg, token, w, to, amount).Some? ==>
      Bal(PayOut(env, cfg, token, w, to, amount).value, other, who) == Bal(w, other, who)
  {
    TransferMoves(w, token, cfg.self, to, amount);
  }

  /** The skim touches no token but the output. */
  lemma SkimKeeps(env: Env, cfg: Config, tokenOut: Address, delivered: u256, fee: Fee, recipient: Address,
                  amountOutMin: u256, w: World, other: Address, who: Address)
    requires fee.bps <= MAX_FEE_BPS && other != tokenOut
    ensures var r := Skim(env, cfg, tokenOut, delivered, fee, recipient, amountOutMin, w);
      r.Ok? ==> Bal(r.value.world, other, who) == Bal(w, other, who)
  {
    if Skim(env, cfg, tokenOut, delivered, fee, recipient, amountOutMin, w).Err? { return; }
    FeeBounds(delivered, fee.bps);
    var feeAmt := FeeOn(delivered, fee.bps);
    PayOutKeeps(env, cfg, tokenOut, w, fee.recipient, feeAmt, other, who);
    PayOutKeeps(env, cfg, tokenOut, PayOut(env, cfg, tokenOut, w, fee.recipient, feeAmt).value, recipient,
                delivered - feeAmt, other, who);
  }

  /** Given the grossed-up minimum, the closing check of the skim fires exactly when an ERC-20 output was sent to
      the router itself, which then measures no receipt at all. */
  lemma SkimMinimumFailsOnlyForSelf(env: Env, cfg: Config, tokenOut: Address, delivered: u256, fee: Fee,
                                    recipient: Address, amountOutMin: u256, w: World)
    requires fee.bps <= MAX_FEE_BPS && delivered >= Gross(amountOutMin, fee.bps)
    requires delivered * fee.bps <= U256_MAX
    ensures var s := Skim(env, cfg, tokenOut, delivered, fee, recipient, amountOutMin, w);
      s != Err(TransferFailed) ==>
        (s == Err(InsufficientOutput) <==> tokenOut != ETH_SENTINEL && recipient == cfg.self && 0 < amountOutMin)
  {
    if Skim(env, cfg, tokenOut, delivered, fee, recipient, amountOutMin, w) == Err(TransferFailed) { return; }
    GrossUpIsSufficientAndTight(amountOutMin, fee.bps, delivered);
    FeeBounds(delivered, fee.bps);
    var feeAmt := FeeOn(delivered, fee.bps);
    PayOutMoves(env, cfg, tokenOut, PayOut(env, cfg, tokenOut, w, fee.recipient, feeAmt).value, recipient,
                delivered - feeAmt);
  }
}
