/** Choosing the best-quoting venue, and the fee-tier table. */
module Selection {
  import opened Chain

  /** The answers of the first `n` venues, in turn; a failing quote leaves no trace. */
  datatype Answers = Answers(world: World, outs: seq<Option<u256>>)

  function Ask(env: Env, w: World, venues: seq<Address>, n: nat, pair: Pair, amount: u256): (r: Answers)
    requires n <= |venues|
    ensures |r.outs| == n
  {
    if n == 0 then Answers(w, [])
    else
      var r := Ask(env, w, venues, n - 1, pair, amount);
      match env.quote(r.world, venues[n - 1], pair, amount)
      case None => Answers(r.world, r.outs + [None])
      case Some(p) => Answers(p.world, r.outs + [Some(p.out)])
  }

  /** Each answer is the venue's own quote, in the world its predecessors' quotes left. */
  lemma {:induction false} AnswersAreQuotes(env: Env, w: World, venues: seq<Address>, n: nat, pair: Pair, amount: u256,
                                            i: nat)
    requires i < n <= |venues|
    ensures var v := Ask(env, w, venues, i, pair, amount).world;
      match env.quote(v, venues[i], pair, amount)
      case None =>
        && Ask(env, w, venues, n, pair, amount).outs[i] == None
        && Ask(env, w, venues, i + 1, pair, amount).world == v
      case Some(p) =>
        && Ask(env, w, venues, n, pair, amount).outs[i] == Some(p.out)
        && Ask(env, w, venues, i + 1, pair, amount).world == p.world
  {
    if i < n - 1 { AnswersAreQuotes(env, w, venues, n - 1, pair, amount, i); }
  }

  /** `best` is the largest answer, given first by `venue`; both are zero when no answer is positive. */
  ghost predicate IsBest(venues: seq<Address>, outs: seq<Option<u256>>, best: u256, venue: Address) {
    && |outs| <= |venues|
    && (forall k :: 0 <= k < |outs| && outs[k].Some? ==> outs[k].value <= best)
    && (best == 0 ==> venue == ZERO)
    && (best > 0 ==> exists k :: FirstBest(venues, outs, best, venue, k))
  }

  ghost predicate FirstBest(venues: seq<Address>, outs: seq<Option<u256>>, best: u256, venue: Address, k: nat) {
    && k < |outs| <= |venues| && venues[k] == venue && outs[k] == Some(best)
    && (forall j :: 0 <= j < k && outs[j].Some? ==> outs[j].value < best)
  }

  /** One more answer: a strictly larger one takes over, anything else leaves the earlier venue in place. */
  lemma OneMoreAnswer(venues: seq<Address>, outs: seq<Option<u256>>, best: u256, venue: Address, out: Option<u256>)
    requires IsBest(venues, outs, best, venue) && |outs| < |venues|
    ensures if out.Some? && out.value > best then IsBest(venues, outs + [out], out.value, venues[|outs|])
            else IsBest(venues, outs + [out], best, venue)
  {
    if out.Some? && out.value > best {
      assert FirstBest(venues, outs + [out], out.value, venues[|outs|], |outs|);
    } else if best > 0 {
      var k :| FirstBest(venues, outs, best, venue, k);
      assert FirstBest(venues, outs + [out], best, venue, k);
    }
  }

  /** After `n` answers the world is `now`, and `best` from `venue` leads. */
  ghost predicate Leading(env: Env, w: World, venues: seq<Address>, n: nat, pair: Pair, amount: u256, now: World,
                          best: u256, venue: Address)
    requires n <= |venues|
  {
    var r := Ask(env, w, venues, n, pair, amount);
    r.world == now && IsBest(venues, r.outs, best, venue)
  }

  lemma NextAnswer(env: Env, w: World, venues: seq<Address>, n: nat, pair: Pair, amount: u256, now: World, best: u256,
                   venue: Address)
    requires n < |venues| && Leading(env, w, venues, n, pair, amount, now, best, venue)
    ensures match env.quote(now, venues[n], pair, amount)
            case None => Leading(env, w, venues, n + 1, pair, amount, now, best, venue)
            case Some(p) =>
              if p.out > best then Leading(env, w, venues, n + 1, pair, amount, p.world, p.out, venues[n])
              else Leading(env, w, venues, n + 1, pair, amount, p.world, best, venue)
  {
    var r, answer := Ask(env, w, venues, n, pair, amount), env.quote(now, venues[n], pair, amount);
    OneMoreAnswer(venues, r.outs, best, venue, if answer.Some? then Some(answer.value.out) else None);
  }

  /** Asking a prefix of a longer list is asking the prefix. */
  lemma {:induction false} AskExtends(env: Env, w: World, short: seq<Address>, long: seq<Address>, n: nat, pair: Pair,
                                      amount: u256)
    requires n <= |short| <= |long| && short == long[..|short|]
    ensures Ask(env, w, short, n, pair, amount) == Ask(env, w, long, n, pair, amount)
    ensures forall best, venue :: IsBest(short, Ask(env, w, short, n, pair, amount).outs, best, venue) ==>
      IsBest(long, Ask(env, w, short, n, pair, amount).outs, best, venue)
  {
    if n > 0 { AskExtends(env, w, short, long, n - 1, pair, amount); }
    var outs := Ask(env, w, short, n, pair, amount).outs;
    forall best, venue | IsBest(short, outs, best, venue)
      ensures IsBest(long, outs, best, venue)
    {
      if best > 0 {
        var k :| FirstBest(short, outs, best, venue, k);
        assert FirstBest(long, outs, best, venue, k);
      }
    }
  }

  /** Asking one venue more, last. */
  lemma LastJoins(env: Env, w: World, venues: seq<Address>, last: Address, pair: Pair, amount: u256, best: u256,
                  venue: Address)
    requires IsBest(venues, Ask(env, w, venues, |venues|, pair, amount).outs, best, venue)
    ensures var r := Ask(env, w, venues, |venues|, pair, amount);
      var answer, all := env.quote(r.world, last, pair, amount),
                         Ask(env, w, venues + [last], |venues| + 1, pair, amount);
      && all.world == (if answer.Some? then answer.value.world else r.world)
      && if answer.Some? && answer.value.out > best
         then IsBest(venues + [last], all.outs, answer.value.out, last)
         else IsBest(venues + [last], all.outs, best, venue)
  {
    var r := Ask(env, w, venues, |venues|, pair, amount);
    var answer := env.quote(r.world, last, pair, amount);
    AskExtends(env, w, venues, venues + [last], |venues|, pair, amount);
    OneMoreAnswer(venues + [last], r.outs, best, venue, if answer.Some? then Some(answer.value.out) else None);
  }

  /** The outcome of `_pickBestVenue`: nothing priced reads as the fallback. */
  ghost predicate IsBestOr(venues: seq<Address>, outs: seq<Option<u256>>, best: u256, venue: Address, none: Address) {
    exists who :: IsBest(venues, outs, best, who) && venue == (if who == ZERO then none else who)
  }

  // ----- Fee tiers -----

  const MAX_FEE: nat := 1_000_000

  type Tiers = map<(Address, Address), nat>

  /** `_setPairFee`: zero clears. */
  function SetTier(t: Tiers, a: Address, b: Address, fee: nat): Result<Tiers> {
    if fee >= MAX_FEE then Err(InvalidFallbackFee) else Ok(t[PairKey(a, b) := fee])
  }

  datatype TierUpdate = TierUpdate(a: Address, b: Address, fee: nat)

  /** A batch is its updates one after the other, or nothing at all. */
  function SetTiers(t: Tiers, updates: seq<TierUpdate>): Result<Tiers> {
    if |updates| == 0 then Ok(t)
    else
      var n := |updates| - 1;
      var u :- SetTiers(t, updates[..n]);
      SetTier(u, updates[n].a, updates[n].b, updates[n].fee)
  }

  predicate ValidTiers(t: Tiers, fallbackFee: nat) {
    0 < fallbackFee < MAX_FEE && forall k :: k in t ==> t[k] < MAX_FEE
  }

  /** In any valid state the resolved tier is a legal fee and does not depend on the order of the tokens. */
  lemma ResolvedFeeIsLegalAndSymmetric(cfg: Config, a: Address, b: Address)
    requires ValidTiers(cfg.pairFee, cfg.fallbackFee)
    ensures 0 < ResolvedFee(cfg, a, b) < MAX_FEE
    ensures ResolvedFee(cfg, a, b) == ResolvedFee(cfg, b, a)
  {}

  /** An update is accepted exactly below the maximum, and then the pair resolves to it, in either order, or to the
      global tier if it is zero. */
  lemma TierTakesEffect(cfg: Config, a: Address, b: Address, fee: nat)
    ensures var r := SetTier(cfg.pairFee, a, b, fee);
      && (r.Ok? <==> fee < 1_000_000)
      && (r.Ok? ==>
            var after := cfg.(pairFee := r.value);
            ResolvedFee(after, a, b) == ResolvedFee(after, b, a) == if fee == 0 then cfg.fallbackFee else fee)
  {}

  /** A batch is accepted exactly if each of its updates is. */
  lemma {:induction false} BatchAccepted(t: Tiers, updates: seq<TierUpdate>)
    ensures SetTiers(t, updates).Ok? <==> forall k :: 0 <= k < |updates| ==> updates[k].fee < 1_000_000
  {
    if |updates| > 0 {
      var n := |updates| - 1;
      BatchAccepted(t, updates[..n]);
      assert updates == updates[..n] + [updates[n]];
    }
  }

  predicate NamesPair(u: TierUpdate, a: Address, b: Address) {
    (u.a == a && u.b == b) || (u.a == b && u.b == a)
  }

  lemma OtherPairsKeep(cfg: Config, u: TierUpdate, a: Address, b: Address)
    requires u.fee < MAX_FEE && !NamesPair(u, a, b)
    ensures ResolvedFee(cfg.(pairFee := SetTier(cfg.pairFee, u.a, u.b, u.fee).value), a, b) == ResolvedFee(cfg, a, b)
  {}

  /** After a batch a pair resolves as the last update that names it says. */
  lemma {:induction false} BatchTakesEffect(cfg: Config, updates: seq<TierUpdate>, k: nat, a: Address, b: Address)
    requires SetTiers(cfg.pairFee, updates).Ok? && k < |updates| && NamesPair(updates[k], a, b)
    requires forall j :: k < j < |updates| ==> !NamesPair(updates[j], a, b)
    ensures ResolvedFee(cfg.(pairFee := SetTiers(cfg.pairFee, updates).value), a, b) ==
      if updates[k].fee == 0 then cfg.fallbackFee else updates[k].fee
  {
    var n := |updates| - 1;
    var before := cfg.(pairFee := SetTiers(cfg.pairFee, updates[..n]).value);
    if k == n {
      TierTakesEffect(before, updates[n].a, updates[n].b, updates[n].fee);
    } else {
      BatchTakesEffect(cfg, updates[..n], k, a, b);
      OtherPairsKeep(before, updates[n], a, b);
    }
  }

  /** A batch keeps the table valid, and a pair it does not name (in either order) resolves as before. */
  lemma {:induction false} BatchKeepsOthers(cfg: Config, updates: seq<TierUpdate>, a: Address, b: Address)
    requires ValidTiers(cfg.pairFee, cfg.fallbackFee) && SetTiers(cfg.pairFee, updates).Ok?
    ensures ValidTiers(SetTiers(cfg.pairFee, updates).value, cfg.fallbackFee)
    ensures (forall k :: 0 <= k < |updates| ==> {updates[k].a, updates[k].b} != {a, b}) ==>
      ResolvedFee(cfg.(pairFee := SetTiers(cfg.pairFee, updates).value), a, b) == ResolvedFee(cfg, a, b)
  {
    if |updates| > 0 {
      var n := |updates| - 1;
      BatchKeepsOthers(cfg, updates[..n], a, b);
      assert PairKey(updates[n].a, updates[n].b) == PairKey(a, b) ==> {updates[n].a, updates[n].b} == {a, b};
    }
  }
}
