/** The chain as the router sees it: balances, everything else, and the contracts it calls.

    A call to a foreign contract is a function of the whole `World`, so a contract may answer one way now and
    another way once its own storage (`store`) has moved. A reverted call leaves the caller with the world it
    had before; that is the only thing a `try`/`catch` in the router relies on. */
module Chain {
  const U128_MAX: int := 0xFFFF_FFFF_FFFF_FFFF_FFFF_FFFF_FFFF_FFFF
  const U256_MAX: int := 0xFFFF_FFFF_FFFF_FFFF_FFFF_FFFF_FFFF_FFFF_FFFF_FFFF_FFFF_FFFF_FFFF_FFFF_FFFF_FFFF

  /** A Solidity `uint256`. Storing the result of an operation in one obliges the proof that it did not overflow. */
  type u256 = x: int | 0 <= x <= U256_MAX
  type Address = nat

  const ZERO: Address := 0
  const WETH: Address := 0xC02a_aA39_b223_FE8D_0A0e_5C4F_27eA_D908_3C75_6Cc2
  const ETH_SENTINEL: Address := 0xEeee_eEee_eEeE_eeEe_EeEe_eEEE_eeee_Eeee_eeee_EEeE

  datatype Option<+T> = None | Some(value: T)

  datatype Error =
    | Expired | ZeroAmount | AmountTooLarge | TooManyVenues | IdenticalTokens | InvalidValue | UnknownVenue
    | TransferFailed | EthTransferFailed | FallbackReverted | InsufficientOutput | SplitAllocationMismatch
    | QuoteBalanceInvariantViolated | Panic | FeeBpsTooHigh | ZeroAddress | NoQuotesAvailable
    | InvalidFallbackFee | ArrayLengthMismatch | VenueAlreadyWhitelisted | VenueNotWhitelisted

  datatype Result<+T> = Ok(value: T) | Err(error: Error) {
    predicate IsFailure() { Err? }
    function PropagateFailure<U>(): Result<U> requires Err? { Err(error) }
    function Extract(): T requires Ok? { value }
  }

  // ----- Balances -----

  /** `ledger` holds every ERC-20 balance, and native ether under `ETH_SENTINEL`. `store` stands for the rest. */
  datatype World = World(ledger: map<(Address, Address), u256>, store: int)

  function Bal(w: World, token: Address, holder: Address): u256 {
    if (token, holder) in w.ledger then w.ledger[(token, holder)] else 0
  }

  function SetBal(w: World, token: Address, holder: Address, amount: u256): World {
    w.(ledger := w.ledger[(token, holder) := amount])
  }

  /** What a holder has after `amount` of some token moved from `from` to `to`. */
  function Moved(before: int, holder: Address, from: Address, to: Address, amount: int): int {
    before + (if holder == to then amount else 0) - (if holder == from then amount else 0)
  }

  /** A plain ERC-20 (or ether) transfer: all or nothing, no fee. */
  function Transfer(w: World, token: Address, from: Address, to: Address, amount: u256): Option<World> {
    if Bal(w, token, from) < amount then None
    else
      var debited := SetBal(w, token, from, Bal(w, token, from) - amount);
      if Bal(debited, token, to) + amount > U256_MAX then None
      else Some(SetBal(debited, token, to, Bal(debited, token, to) + amount))
  }

  /** A transfer succeeds exactly when the sender has the amount and the receiver's balance does not overflow; it
      moves that amount, and nothing else anywhere. */
  lemma TransferMoves(w: World, token: Address, from: Address, to: Address, amount: u256)
    ensures var r := Transfer(w, token, from, to, amount);
      && (r.Some? <==> amount <= Bal(w, token, from) && (from == to || Bal(w, token, to) + amount <= U256_MAX))
      && (r.Some? ==> r.value.store == w.store)
      && (r.Some? ==> forall t, a ::
            Bal(r.value, t, a) == if t == token then Moved(Bal(w, t, a), a, from, to, amount) else Bal(w, t, a))
  {}

  /** `IWETH.deposit`: `who` hands ether to the WETH contract and is credited as much WETH. */
  function Deposit(w: World, who: Address, amount: u256): Option<World> {
    match Transfer(w, ETH_SENTINEL, who, WETH, amount)
    case None => None
    case Some(paid) =>
      if Bal(paid, WETH, who) + amount > U256_MAX then None
      else Some(SetBal(paid, WETH, who, Bal(paid, WETH, who) + amount))
  }

  /** `IWETH.withdraw`: burns WETH of `who` and pays the ether out. */
  function Withdraw(w: World, who: Address, amount: u256): Option<World> {
    if Bal(w, WETH, who) < amount then None
    else Transfer(SetBal(w, WETH, who, Bal(w, WETH, who) - amount), ETH_SENTINEL, WETH, who, amount)
  }

  /** `v` has `amount` more (or, negated, less) WETH in the hands of `who` than `w`, and as much ether moved to the
      WETH contract; every other balance is the same. */
  ghost predicate Wrapped(w: World, v: World, who: Address, amount: int) {
    && Bal(v, WETH, who) == Bal(w, WETH, who) + amount
    && (forall t, a :: t != ETH_SENTINEL && (t != WETH || a != who) ==> Bal(v, t, a) == Bal(w, t, a))
    && (forall a :: Bal(v, ETH_SENTINEL, a) == Moved(Bal(w, ETH_SENTINEL, a), a, who, WETH, amount))
  }

  /** Depositing wraps one for one. */
  lemma DepositWraps(w: World, who: Address, amount: u256)
    requires Deposit(w, who, amount).Some?
    ensures Wrapped(w, Deposit(w, who, amount).value, who, amount)
  {
    TransferMoves(w, ETH_SENTINEL, who, WETH, amount);
  }

  /** Withdrawing unwraps one for one. */
  lemma WithdrawUnwraps(w: World, who: Address, amount: u256)
    requires Withdraw(w, who, amount).Some?
    ensures Wrapped(w, Withdraw(w, who, amount).value, who, 0 - amount)
  {
    var burned := SetBal(w, WETH, who, Bal(w, WETH, who) - amount);
    TransferMoves(burned, ETH_SENTINEL, WETH, who, amount);
  }

  // ----- Foreign contracts -----

  datatype Pair = Pair(tin: Address, tout: Address)
  datatype Priced = Priced(world: World, out: u256)
  datatype Fillable = Fillable(world: World, fill: u256, out: u256)
  datatype SwapCall = SwapCall(venue: Address, pair: Pair, amountIn: u256, minOut: u256, recipient: Address)
  datatype UniCall = UniCall(router: Address, pair: Pair, fee: nat, amountIn: u256, minOut: u256, recipient: Address)

  /** Every contract the router does not control. `None` is a revert (or, for `quoteFillable`, undecodable data). */
  datatype Env = Env(
    approved: (World, Address, Address, u256) -> bool,
    quote: (World, Address, Pair, u256) -> Option<Priced>,
    isFillable: (World, Address) -> bool,
    quoteFillable: (World, Address, Pair, u256) -> Option<Fillable>,
    swap: (World, SwapCall) -> Option<World>,
    uniswap: (World, UniCall) -> Option<World>,
    acceptsEth: (World, Address, u256) -> bool)

  /** `safeTransferFrom(owner, to)` by the router: needs the owner's approval and the balance. */
  function Pull(env: Env, w: World, token: Address, owner: Address, to: Address, amount: u256): Option<World> {
    if env.approved(w, token, owner, amount) then Transfer(w, token, owner, to, amount) else None
  }

  // ----- Router storage -----

  /** The part of the router's storage that swaps read. It cannot change during a swap: its setters are restricted. */
  datatype Config = Config(self: Address, fallback: Address, venues: seq<Address>,
                           fallbackFee: nat, pairFee: map<(Address, Address), nat>)

  /** Order-independent key of a token pair; stands for the hash of the sorted pair. */
  function PairKey(a: Address, b: Address): (Address, Address) {
    if a < b then (a, b) else (b, a)
  }

  /** `resolvedFee`: the pair's override if set, else the global tier. */
  function ResolvedFee(cfg: Config, a: Address, b: Address): nat {
    var key := PairKey(a, b);
    if key in cfg.pairFee && cfg.pairFee[key] != 0 then cfg.pairFee[key] else cfg.fallbackFee
  }

  predicate IsVenue(cfg: Config, venue: Address) { venue in cfg.venues || venue == cfg.fallback }

  /** `_tryQuote`: a failing quote reads as zero and leaves no trace. */
  function TryQuote(env: Env, cfg: Config, w: World, venue: Address, pair: Pair, amount: u256): Priced {
    if !IsVenue(cfg, venue) then Priced(w, 0)
    else match env.quote(w, venue, pair, amount)
         case None => Priced(w, 0)
         case Some(p) => p
  }

  /** A venue's answer as planning reads it: a failure leaves no trace and is no price, and neither is anything past
      128 bits. */
  function Quoted(env: Env, w: World, venue: Address, pair: Pair, amount: u256): Priced {
    match env.quote(w, venue, pair, amount)
    case None => Priced(w, 0)
    case Some(p) => if p.out <= U128_MAX then p else Priced(p.world, 0)
  }

  // ----- What is assumed of foreign contracts, where a theorem says so -----

  /** A swap never takes more of the router's input token than it was given: venues are paid up front and hold no
      allowance; the Uniswap router's allowance is exactly the input. */
  ghost predicate Contained(env: Env, self: Address) {
    && (forall w, c :: env.swap(w, c).Some? ==> Bal(env.swap(w, c).value, c.pair.tin, self) >= Bal(w, c.pair.tin, self))
    && (forall w, c :: env.uniswap(w, c).Some? ==>
          Bal(env.uniswap(w, c).value, c.pair.tin, self) >= Bal(w, c.pair.tin, self) - c.amountIn)
  }

  /** No quote costs `who` any of `token`. */
  ghost predicate Quiet(env: Env, token: Address, who: Address) {
    && (forall w, v, p, x :: env.quote(w, v, p, x).Some? ==>
          Bal(env.quote(w, v, p, x).value.world, token, who) >= Bal(w, token, who))
    && (forall w, v, p, x :: env.quoteFillable(w, v, p, x).Some? ==>
          Bal(env.quoteFillable(w, v, p, x).value.world, token, who) >= Bal(w, token, who))
  }

  /** `who` holds less than `snap` of `token`. */
  predicate Short(w: World, token: Address, who: Address, snap: nat) { Bal(w, token, who) < snap }

  /** No quote makes up for such a loss once it has happened. */
  ghost predicate Lasting(env: Env, token: Address, who: Address, snap: nat) {
    && (forall w, v, p, x :: env.quote(w, v, p, x).Some? && Short(w, token, who, snap) ==>
          Short(env.quote(w, v, p, x).value.world, token, who, snap))
    && (forall w, v, p, x :: env.quoteFillable(w, v, p, x).Some? && Short(w, token, who, snap) ==>
          Short(env.quoteFillable(w, v, p, x).value.world, token, who, snap))
  }

  /** The sharper form for well-behaved contracts: the router's input token moves by exactly what was sold. */
  ghost predicate Exact(env: Env, self: Address) {
    && (forall w, c :: env.swap(w, c).Some? ==> Bal(env.swap(w, c).value, c.pair.tin, self) == Bal(w, c.pair.tin, self))
    && (forall w, c :: env.uniswap(w, c).Some? ==>
          Bal(env.uniswap(w, c).value, c.pair.tin, self) == Bal(w, c.pair.tin, self) - c.amountIn)
  }
}
