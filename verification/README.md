# PropAMM router: a verified model

A Dafny model of the PropAMM router contract and of the four protocol-like parts of its tooling, with proofs of what
they are for. `dafny verify dfyconfig.toml` checks everything.

## What is modelled

**The chain** (`Chain.dfy`). Balances are a ledger; everything else a contract may remember is an uninterpreted
`store`. Venues, the Uniswap router and quoter are arbitrary functions of the whole world, so a venue may answer
differently as soon as anything has moved, refuse, under-deliver, or move any balances it likes, also while quoting.
A caught call restores the saved world. What a theorem assumes of them it names:

- `Contained`: a swap takes no more of the router's input token than it was given (venues are paid up front and hold no
  allowance; Uniswap's allowance is the input).
- `Quiet`: no quote costs the router any of a token, used to show that planning succeeds; `Lasting`: no quote makes up
  for such a loss, used to show that one is caught.
- `Exact`: it takes exactly that. `Untouched` (single-venue swaps): it leaves the caller's own holdings alone.
- `Delivers`, `FallbackDelivers`, `Payable`, `UniswapPays`: the one call, payee or payout a success theorem is about does
  what it should.
- `FallbackPrices` with `RateNeverRises`: the fallback's unit rate does not rise with size. `Quotes` with `FlatFrom`: a
  venue's output is flat from its capacity on; `Concave`: it never grows faster than in proportion. Used only by the
  theorems that are about those shapes.

**The router** (`Router.dfy`, a class over the storage, the chain and the event log). Each method does what the
contract's function does, step by step, and is proved equal to a specification function; the theorems are about those
functions. Amounts are `u256`, a subset type, so a method that stores an unguarded product or difference in one carries
the proof that it cannot wrap. Where the contract would revert with a panic the model has an error branch.

- `SplitPlanner.dfy`, `Waterfall.dfy`, `Probe.dfy`: finding candidates, ranking them, filling the order.
- `Legs.dfy`, `Split.dfy`: executing a plan under per-leg rollback; the split entrypoints from pull to payout.
- `CoreSwap.dfy`, `Selection.dfy`, `Whitelist.dfy`: the single-venue swap, choosing a venue, fee tiers, the venue set.
- `Fees.dfy`: the gross-up and the skim.

**The WebSocket source** of the TypeScript SDK (`WsSource.dfy`): a state machine over calls, socket events and timers,
and a class whose methods are proved to take exactly its steps.

**Exact decimals and order books** (`Prices.dfy`, `Books.dfy`): the Rust and the TypeScript conversion proved against
one definition of half-up rounding, and both groupings against one definition of "the first ladder wins".

**Decimal text** (`Units.dfy`): `parse_units` and `format_units`, over unbounded integers (Python) and 256 bits (Rust).

**The frame reader** of the gas scripts (`FrameReader.dfy`), against sections 5.2 and 5.3 of RFC 6455.

## Where the code does not meet the stated property

Each has a concrete instance or a direct proof, and the exact condition under which the property does hold.

- Rust's `base_units` is documented as half-up rounding, `None` only on overflow. It also returns `None` for **zero**
  with 78 or more powers of ten to gain, so the result depends on how zero is written (`Prices.ZeroLosesItsUnits`,
  `Prices.RustRoundsHalfUp`). A rung is lost to this, or to a product past 256 bits, and for no other reason
  (`Prices.RungsAgree`).
- `recv_text` says it forgives masked server frames, but it takes the key out of the payload's own length and stops four
  bytes short, losing the last four of the payload: it follows the RFC exactly on unmasked frames
  (`FrameReader.ReaderFollowsRfcIffUnmasked`, with an instance in `FrameReader.MaskedFrameIsMisread`).
- `_send_frame` writes the length into a single byte: the frame decodes to its payload exactly when that is at most 125
  bytes (`FrameReader.ClientFrameDecodesIffShort`).
- A waiter on an open WebSocket source can be left with neither socket nor timer: when a reconnection comes due and finds
  no `WebSocket` to construct, and at no other time (`WsSource.BackedExactlyUnlessStranded`, `WsSource.StrandedWaiter`).
  Waiters still end by their own timeout. A recorded frame can be left with nothing to refresh it in the same way, or by
  a frame from a socket already torn down, which a conforming socket does not deliver
  (`WsSource.RefreshedExactlyUnlessStaled`).
- The skim's closing minimum check is not redundant: given the grossed-up minimum it fires exactly for an ERC-20 output
  sent to the router itself (`Fees.SkimMinimumFailsOnlyForSelf`, `Split.FeeSplitNeverShortsTheNet`).
- Halving is there so that a venue is never handed input it will not fill, but the two-point probe can offer a venue more
  than its capacity. For a concave venue that is flat from its capacity on, it does so exactly when the order exceeds the
  capacity and the two points differ by too little to read as saturated (`Probe.OverfillsExactly`), for instance an
  order of 101 to a venue that fills 100 (`Probe.SlightOverfill`). The excess is then at most about 1%
  (`Probe.BlindProbeRespectsCapacity`).
- The comment on `_executeLegs` that the planner always emits one leg is out of date: it emits up to six. That the
  allocation check cannot fire is nonetheless true (`Split.RunGuarantees`).

## Model

| member | source | states |
|---|---|---|
| Chain.TransferMoves | src/PropAMMRouter.sol:387-419 | A plain token transfer happens exactly when the sender can pay and the receiver can hold it; it moves that amount and changes nothing else |
| Chain.DepositWraps | src/PropAMMRouter.sol:303-312 | Wrapping ether credits as much WETH and moves as much ether, one for one |
| Chain.WithdrawUnwraps | src/PropAMMRouter.sol:425-431 | Unwrapping is the reverse, one for one |
| SplitPlanner.RateTransitive | src/libraries/SplitPlanner.sol:42-51 | Rates compared by cross-multiplication are transitive because fills are positive, strictly if either step is strict |
| SplitPlanner.NotBetterTransitive | src/libraries/SplitPlanner.sol:46-51 | With its tie-break, the ordering is a strict weak order |
| SplitPlanner.SortedIsRankedPermutation | src/libraries/SplitPlanner.sol:53-64 | The sort is a permutation with rates never rising and, at equal rates, fills never rising |
| SplitPlanner.SortIsStable | src/libraries/SplitPlanner.sol:53-64 | Among candidates of the same fill and output the one gathered first stays first |
| SplitPlanner.BetterThan | src/libraries/SplitPlanner.sol:46-51 | Neither product overflows on 128-bit candidates |
| SplitPlanner.InsertAt | src/libraries/SplitPlanner.sol:55-62 | One pass of the inner loop, in place, is one insertion into the sorted prefix and leaves the rest alone |
| SplitPlanner.SortByRateDesc | src/libraries/SplitPlanner.sol:54-64 | The in-place sort computes the specified sort |
| SplitPlanner.IsSaturated | src/libraries/SplitPlanner.sol:38-40 | The 1% test, with no overflow on 128-bit quotes |
| SplitPlanner.ProRataIsTightFloor | src/libraries/SplitPlanner.sol:66-76 | A leg's floor is the largest amount whose rate does not exceed the ranking quote's, all of it for a full leg |
| SplitPlanner.ProRataMin | src/libraries/SplitPlanner.sol:73-76 | The checked-arithmetic form: no overflow, result within 128 bits, the shortcut for a full leg agrees |
| Waterfall.PropLegsTotal | src/PropAMMRouter.sol:1030-1036 | Prop legs plus what is left always make up the order |
| Waterfall.PropLegsShape | src/PropAMMRouter.sol:1027-1033 | Every prop leg is positive, within its fill and floored pro rata; only the last can be partial |
| Waterfall.PlanShape | src/PropAMMRouter.sol:967-1043 | Every plan: legs sum to the order, at most 5 prop legs for the top candidates and one fallback leg, last, with no floor |
| Waterfall.ContestedBelow | src/PropAMMRouter.sol:1005-1032 | A candidate that does not beat the reference condemns everything ranked below it |
| Waterfall.EarlyExitIsFullScan | src/PropAMMRouter.sol:1005-1032 | On ranked candidates the `break` ends in the very state the scan of all remaining candidates ends in |
| Waterfall.ReferenceAtResidual | src/PropAMMRouter.sol:979-992 | The reference is quoted at the largest of: the order less the five best fills together, 1% of the order, one unit |
| Waterfall.RemainingVersusReference | src/PropAMMRouter.sol:986-999 | What remains never drops below the residual bound; it is smaller than the quoted size exactly when under 1% of the order is left |
| Waterfall.LowerRateLoosens | src/PropAMMRouter.sol:952-966 | A reference with a lower unit rate contests no candidate the other let through |
| Waterfall.RefinementIsSafe | src/PropAMMRouter.sol:952-966 | If the fallback's rate never rises with size, refining only loosens the cutoff, unless over 99% was placed, and then the candidate stays contested |
| Waterfall.RefinementOnlyAdds | src/PropAMMRouter.sol:1007-1026 | The plan with refinement extends the plan without, by a leg exactly if the re-quote at what remains is usable and the contested candidate beats it; by none when over 99% was placed |
| Waterfall.PlanIsACutoff | src/PropAMMRouter.sol:933-1043 | Under such a fallback one of its prices, at the reference size or at what remained, separates the plan: every candidate served strictly beats it and, unless the order or the five legs ran out, none turned away does |
| Probe.ProbeDownHonest | src/PropAMMRouter.sol:875-888 | What the halving search returns is, at its fill, the venue's own answer in the world the search had then reached; it is the first answer below the ceiling, at most half of where it began, within the step budget |
| Probe.BlindProbeHonest | src/PropAMMRouter.sol:843-861 | A two-point probe returns an answer given in that very probe: to the whole order at its start, to half of it next, or in the halving search that follows when those agree |
| Probe.GatheredHonest | src/PropAMMRouter.sol:890-932 | Every candidate has a fill in 1..amountIn and a 128-bit output; it is what its own listed venue, not the fallback, answered when its turn came, in the world left by the venues before it; no venue has two |
| Probe.HalvingFindsFirst | src/PropAMMRouter.sol:875-888 | Conversely, the halving search returns the first answer below the ceiling if one comes within eight steps |
| Probe.BlindProbeExactly | src/PropAMMRouter.sol:843-861 | The two-point probe returns exactly: the whole order if it pays at least 99% in proportion to its half, else the half, else what halving finds when both pay the same |
| Probe.ProbeExactly | src/PropAMMRouter.sol:816-861 | A listed venue's probe yields exactly what its answers offer, in its own words if it states its capacity |
| Probe.GatheredExactly | src/PropAMMRouter.sol:892-932 | A venue due a turn becomes a candidate with exactly what it offers in that turn, no more and no less |
| Probe.NoDuplicatesNoSkips | src/PropAMMRouter.sol:899-915 | With no venue listed twice only the fallback's own address is ever skipped |
| Probe.ProbeDownUnderCapacity | src/PropAMMRouter.sol:863-888 | For any venue flat from its capacity on, halving from a flat quote yields only sizes strictly under capacity |
| Probe.OverfillsExactly | src/PropAMMRouter.sol:843-861 | For a concave venue flat from capacity: it is offered more than that if and only if the order exceeds it and the two points differ without reading as saturated |
| Probe.SlightOverfill | src/PropAMMRouter.sol:859-860 | The instance: capacity 100, order 101, all of it offered |
| Probe.BlindProbeRespectsCapacity | src/libraries/SplitPlanner.sol:18-22 | The excess is about 1% at most, the saturation tolerance |
| Legs.PayExactly | src/PropAMMRouter.sol:406-410 | The push payment is made exactly if the payer has, and unless it is the router has approved, the input; it moves just that |
| Legs.DispatchExactly | src/PropAMMRouter.sol:387-419 | A dispatch succeeds exactly when a listed venue takes its payment, swaps, and leaves the recipient the minimum or more; it reports what arrived |
| Legs.LegByLeg | src/PropAMMRouter.sol:674-702 | A leg that delivers has its event and leaves nothing to the fallback; any other leaves the world as it was and its input to the fallback |
| Legs.DeliveringLegsExecute | src/PropAMMRouter.sol:674-702 | If every venue leg delivers, each has its event in order and only the fallback leg goes to the fallback |
| Legs.FallbackExactly | src/PropAMMRouter.sol:704-713 | The coalesced swap, in the pair's tier, for all that is left, floored at the shortfall, succeeds exactly when Uniswap delivers that; its event is last |
| Legs.UnwrapExactly | src/PropAMMRouter.sol:425-431 | Native output is paid exactly when the WETH is there and backed and the payee takes the ether |
| Legs.ExecuteExactly | src/PropAMMRouter.sol:657-719 | Legs that sum to the order execute exactly when the fallback delivers what is left to it or, with nothing left, the minimum has been delivered |
| Legs.ExecutedEventsName | src/PropAMMRouter.sol:449-458 | Every event names the sender, the recipient swapped for and both tokens as the caller gave them |
| Legs.LegsAccounts | src/PropAMMRouter.sol:674-702 | Over any leg loop: inputs of executed legs plus the coalesced amount are the legs' total; outputs of the events are the payee's balance increase |
| Legs.EventsFillLegs | src/PropAMMRouter.sol:678-698 | Every event of the loop reports one of the legs, in full and at or above its floor |
| Legs.EventsBound | src/PropAMMRouter.sol:674-702 | No more events than venue legs |
| Legs.SettledAccounts | src/PropAMMRouter.sol:657-713 | After the fallback swap: event inputs are the whole order, event outputs are what was delivered and what the payee gained |
| Legs.DispatchCustody | src/PropAMMRouter.sol:387-419 | A venue leg costs the router at most (with exact venues, precisely) its input |
| Legs.SettledCustody | src/PropAMMRouter.sol:657-713 | The router's input token falls by no more than the order, whatever legs failed |
| Legs.UnwrapPays | src/PropAMMRouter.sol:421-431 | Unwrapping pays the payee exactly what was delivered out of the router's WETH |
| Legs.ExecuteGuarantees | src/PropAMMRouter.sol:657-719 | A successful execution: inputs and outputs of the events account for everything, minimum met, payee credited, the router's WETH as before on native output |
| CoreSwap.FailedAttemptIsDirectFallback | src/PropAMMRouter.sol:320-366 | A venue that reverts, leaves less than the minimum or is not listed gives the world and result of naming the fallback at once; the reported venue says which happened |
| CoreSwap.DeliveringVenueTrades | src/PropAMMRouter.sol:332-343 | A venue that leaves the minimum or more decides the trade: its world, what arrived, its name |
| CoreSwap.ViaFallbackExactly | src/PropAMMRouter.sol:345-361 | The fallback trade succeeds exactly when it can be funded and Uniswap, in the pair's tier, leaves the minimum or more |
| CoreSwap.FallbackPaysItsTier | src/PropAMMRouter.sol:349-357 | Under a Uniswap that pays by pair, tier and amount, what is delivered is the pair's own tier's payment for the whole input |
| CoreSwap.PrepareExactly | src/PropAMMRouter.sol:303-326 | The opening checks pass exactly in time, with the right ether and two different tokens |
| CoreSwap.SwapSucceedsExactly | src/PropAMMRouter.sol:294-367 | When a swap succeeds, in terms of the checks, the venue, the fallback and the payee |
| CoreSwap.OnlyKnownVenues | src/PropAMMRouter.sol:181-194 | Exactly the listed venues and the fallback can be named, and only in time |
| CoreSwap.TradeTakesInput | src/PropAMMRouter.sol:330-360 | On either path the input leaves the router if it was wrapped there, and the caller otherwise |
| CoreSwap.SwapDelivers | src/PropAMMRouter.sol:294-367 | On every path the recipient gains the reported amount, at least the minimum; native output leaves the router's WETH unchanged |
| CoreSwap.SwapTakesInput | src/PropAMMRouter.sol:294-367 | The router's input token is as before on every path |
| CoreSwap.CallerPaysOnce | test/PropAMMRouterEth.t.sol:73-122 | For the whole call, ether or ERC-20, venue or fallback: the caller is debited `amountIn` once, nothing stays in the router |
| CoreSwap.SwapOutcome | src/PropAMMRouter.sol:290-293 | The minimum is met, by the fallback or by the listed venue that was named |
| Fees.CheckFeeExactly | src/libraries/FrontendFees.sol:28-31 | A fee is accepted exactly if it is at most 1% and has a recipient |
| Fees.GrossUpIsSufficientAndTight | src/libraries/FrontendFees.sol:33-49 | For all net minimums and 0..100 bps: the grossed-up minimum always leaves the net one, and asks at most 2 units more than any sufficient delivery |
| Fees.GrossUpSlackIsReached | src/libraries/FrontendFees.sol:39-41 | The slack of 2 does occur |
| Fees.SkimConserves | test/PropAMMRouterFee.t.sol:383-407 | Net plus fee is what was delivered, fee floored, recipients credited, nothing left in the router, net minimum met |
| Fees.SkimSucceeds | src/libraries/FrontendFees.sol:69-100 | A grossed-up delivery the router holds is always disbursed to payees that take it |
| Fees.SkimMinimumFailsOnlyForSelf | src/libraries/FrontendFees.sol:69-100 | Given the grossed-up minimum, the closing check fires exactly for an ERC-20 output sent to the router itself |
| Split.AdmissibleExactly | src/PropAMMRouter.sol:600-618 | A split is admitted exactly in time, for 1 to 2^128 - 1 units, with at most 12 venues |
| Split.LateSplitsFail | src/PropAMMRouter.sol:521-532 | Past its deadline no split happens |
| Split.PullExactly | src/PropAMMRouter.sol:626-641 | When the pull succeeds: two different tokens, the right ether, and a caller who approved and holds the input |
| Split.PullEffect | src/PropAMMRouter.sol:626-641 | The pull debits the caller once and leaves the router holding exactly that much more of the token it will sell |
| Split.RankingHonest | src/PropAMMRouter.sol:748-756 | The ranking the planner fills from holds honest candidates of listed venues only, best rate first |
| Split.RankingExact | src/PropAMMRouter.sol:748-756 | Every listed venue due a turn is in the ranking with exactly what its answers offer |
| Split.QuietPlanningSucceeds | src/PropAMMRouter.sol:734-759 | Where no quote costs the router the input token, planning cannot fail |
| Split.QuietPlanIsFound | src/PropAMMRouter.sol:734-759 | There a plan is found exactly when the input can be pulled |
| Split.LossIsCaught | src/PropAMMRouter.sol:734-759 | A venue's first answer, the reference quote or the re-quote that costs the router input token, by any amount and with nobody making up for it, fails the plan |
| Split.PlanSplitShape | src/PropAMMRouter.sol:748-759 | Planning fails for the balance bracket only; otherwise the plan has the shape above for that very ranking and no quote cost the router its input token |
| Split.ExecutionKeeps | src/PropAMMRouter.sol:657-719 | Executing a plan that sums to the order cannot hit the allocation check and keeps the accounts, relative to the world it started from and the settled run before unwrapping |
| Split.RunGuarantees | src/PropAMMRouter.sol:521-549 | Pull to payout, for any venue behaviour: `SplitAllocationMismatch` is unreachable; from the world the request's plan was made in, every unit in and out is accounted for in at most 6 events, the payee credited, the router's WETH restored on native output; the router's input token is whole |
| Split.SplitSucceedsExactly | src/PropAMMRouter.sol:521-549 | Where quotes are quiet and the input is pulled, a split succeeds exactly when the fallback delivers what the venues left to it, or they left nothing and delivered the minimum, and native output can be paid |
| Split.DeliveredPlanIsReported | README.md:162-168 | Where every venue of the plan delivers, the events are the plan's legs, one each, in order |
| Split.SplitPaysRecipient | src/PropAMMRouter.sol:521-549 | The recipient is credited what was delivered, the minimum or more, under events that name the request |
| Split.EventsHonourQuotes | src/PropAMMRouter.sol:476-490 | Every event but the fallback's is a venue of the ranking filling, at its quoted rate or better, part of what it answered when probed with the pulled funds in hand |
| Split.FeeSplitGuarantees | README.md:147-160 | The net amount is the sum of the events' outputs less the fee, at least the net minimum; both recipients are credited; none of the gross stays in the router, relative to the world planning left |
| Split.FeeSplitSucceedsExactly | src/PropAMMRouter.sol:564-599 | The fee variant succeeds exactly when its run does, for payees that take the output |
| Split.FeeSplitNeverShortsTheNet | src/PropAMMRouter.sol:578-598 | From the gross minimum to the skim: a run that met it nets the minimum, except to the router itself |
| Split.CapStopsSplits | src/PropAMMRouter.sol:476-497 | Past the venue cap every split fails; within it none fails for the cap |
| Whitelist.SwapPopRemoves | src/PropAMMRouter.sol:1365-1368 | Swap-and-pop removes that element and keeps the others, distinct |
| Whitelist.HistoryIsASet | src/PropAMMRouter.sol:1341-1409 | After any history of additions and removals, enumeration visits each listed venue exactly once, never the zero address |
| Whitelist.AddressSet.Insert | src/PropAMMRouter.sol:1348-1357 | Adds at the end, and only an absent venue |
| Whitelist.AddressSet.Delete | src/PropAMMRouter.sol:1365-1368 | Removes by swapping in the last venue; the position table stays exact |
| Selection.AnswersAreQuotes | src/PropAMMRouter.sol:1176-1185 | Each answer compared is the venue's own quote, in the world its predecessors left; a failing one is skipped without trace |
| Selection.OneMoreAnswer | src/PropAMMRouter.sol:1172-1186 | A strictly larger answer takes the lead, any other leaves the earlier venue there |
| Selection.LastJoins | src/PropAMMRouter.sol:1139-1155 | The fallback quoted after the scan competes as one more venue in last place |
| Selection.ResolvedFeeIsLegalAndSymmetric | src/PropAMMRouter.sol:1261-1280 | The resolved tier is strictly between 0 and 1,000,000 and ignores token order |
| Selection.TierTakesEffect | src/PropAMMRouter.sol:1277-1319 | An update is accepted exactly below 1,000,000, and then the pair resolves to it, or to the global tier if it is zero |
| Selection.BatchAccepted | src/PropAMMRouter.sol:1301-1319 | A batch is accepted exactly if each update is |
| Selection.BatchTakesEffect | src/PropAMMRouter.sol:1301-1319 | After it a pair resolves as the last update that names it says |
| Selection.BatchKeepsOthers | src/PropAMMRouter.sol:1301-1319 | A batch keeps all tiers legal and leaves every pair it does not name resolved as before |
| Router.PropAMMRouter.Initialize | src/PropAMMRouter.sol:95-110 | Fails exactly for a zero fallback, quoter or authority |
| Router.PropAMMRouter.constructor | src/PropAMMRouter.sol:104-120 | A fresh router has no venues, tier 3000, and the three default pair tiers in force |
| Router.PropAMMRouter.SetFallbackSwapRouter | src/PropAMMRouter.sol:1233-1237 | The fallback is never the zero address |
| Router.PropAMMRouter.SetFallbackFee | src/PropAMMRouter.sol:1252-1256 | Accepts exactly the tiers strictly between 0 and 1,000,000 |
| Router.PropAMMRouter.SetPairFee | src/PropAMMRouter.sol:1290-1319 | The update takes effect at once or changes nothing |
| Router.PropAMMRouter.SetPairFees | src/PropAMMRouter.sol:1301-1310 | The batch is its single updates in order, or nothing at all |
| Router.PropAMMRouter.AddVenue | src/PropAMMRouter.sol:1341-1357 | Succeeds exactly for a nonzero venue not yet listed |
| Router.PropAMMRouter.RemoveVenue | src/PropAMMRouter.sol:1365-1368 | Succeeds exactly for a listed venue |
| Router.PropAMMRouter.IsSplitAvailable | src/PropAMMRouter.sol:492-497 | True exactly when collecting the venues does not revert |
| Router.PropAMMRouter.CollectVenues | src/PropAMMRouter.sol:608-618 | The whole whitelist, each venue once, or the cap's error |
| Router.PropAMMRouter.PickBestPropAMM | src/PropAMMRouter.sol:1157-1186 | The maximum over all answers given in the scan, and the first venue that gave it |
| Router.PropAMMRouter.PickBestVenue | src/PropAMMRouter.sol:1124-1155 | The same with the fallback last, which also stands in when nothing is priced |
| Router.PropAMMRouter.ProbeVenue | src/PropAMMRouter.sol:816-861 | The probe in storage terms, each failing quote undone, no overflow |
| Router.PropAMMRouter.GatherCandidates | src/PropAMMRouter.sol:892-932 | The scratch array, trimmed, holds exactly the specified candidates |
| Router.PropAMMRouter.RunWaterfall | src/PropAMMRouter.sol:967-1043 | The loop computes the specified plan and none of its products exceeds 256 bits |
| Router.PropAMMRouter.PlanLegs | src/PropAMMRouter.sol:748-759 | Gather, sort, fill, then the balance bracket |
| Router.PropAMMRouter.TryDispatch | src/PropAMMRouter.sol:678-701 | A failing leg leaves the world exactly as it was, the venue's payment included |
| Router.PropAMMRouter.ExecuteLegs | src/PropAMMRouter.sol:657-719 | The whole execution in place: world, result and events are the specified ones |
| Router.PropAMMRouter.SwapSplitV1 | src/PropAMMRouter.sol:521-549 | All or nothing; on success the new events account for the order and the output, in at most 6 |
| Router.PropAMMRouter.SwapSplitWithFeeV1 | src/PropAMMRouter.sol:564-599 | All or nothing; the recipient nets the minimum, and net plus floored fee is what the events report |
| Router.PropAMMRouter.SwapCore | src/PropAMMRouter.sol:294-367 | The single-venue swap in place, with its rollback |
| Router.PropAMMRouter.SwapViaVenueV1 | src/PropAMMRouter.sol:181-194 | All or nothing, one event, the router's input token as before |
| Router.PropAMMRouter.SwapV1 | src/PropAMMRouter.sol:126-147 | Trades through the best-quoting venue if its quote clears the minimum, else the fallback; the minimum is met |
| WsSource.StepKeepsInvariant | sdk/typescript/src/ws-source.ts:49-182 | Every event keeps: no live socket beside a pending reconnection, no waiters behind a recorded frame, nothing after close, every call waiting or settled |
| WsSource.InvariantAlways | sdk/typescript/src/ws-source.ts:49-182 | Over every interleaving of calls, socket events and timers |
| WsSource.OutcomesAreFinal | sdk/typescript/src/ws-source.ts:125-182 | A call is settled once; an idle timer that finds waiters only rearms |
| WsSource.OutcomesAreEarned | sdk/typescript/src/ws-source.ts:49-182 | Each outcome has its one cause: a frame, `close`, the call's own timer, a missing constructor |
| WsSource.DeliveryNeedsAFrame | sdk/typescript/src/ws-source.ts:145-156 | Over any run nobody is answered, and no frame is on record, unless a decodable text frame arrived |
| WsSource.SettledCallsStaySettled | sdk/typescript/src/ws-source.ts:158-182 | Over any continuation no outcome is lost or changed |
| WsSource.ClosedForever | sdk/typescript/src/ws-source.ts:64-71 | After `close`, whatever follows, there is never a socket, timer or waiter again |
| WsSource.CallBegins | sdk/typescript/src/ws-source.ts:49-96 | What becomes of a call: refused when closed, answered at once from a frame on record, otherwise waiting with a socket or a reconnection, unless no socket can be constructed |
| WsSource.FrameAnswersAll | sdk/typescript/src/ws-source.ts:145-156 | A decodable text frame goes on record and answers every waiting call |
| WsSource.FirstDecisionStands | sdk/typescript/src/ws-source.ts:145-182 | Over any run a waiting call ends as the first frame, timer of its own or `close` that reaches it says, and stays so whatever follows |
| WsSource.DropReconnects | sdk/typescript/src/ws-source.ts:90-107 | Losing the socket in use schedules a reconnection, which opens a new one |
| WsSource.OtherClosesIgnored | sdk/typescript/src/ws-source.ts:90-94 | The close of any socket but the one in use changes nothing |
| WsSource.IdleTearsDown | sdk/typescript/src/ws-source.ts:125-136 | An idle timer with nobody waiting drops connection, backoff and frame; the next call opens a socket and waits for a fresh frame |
| WsSource.SettlingArms | sdk/typescript/src/ws-source.ts:59-61 | A settled call restarts the idle timer of an open source with a finite timeout |
| WsSource.NeverIdleIfInfinite | sdk/typescript/src/ws-source.ts:110-118 | With no finite timeout there never is an idle timer |
| WsSource.BackedExactlyUnlessStranded | sdk/typescript/src/ws-source.ts:73-136 | Waiters stay backed by a socket or a scheduled reconnection through every event but one: a reconnection that finds no constructor while calls wait |
| WsSource.WaitersAreServed | sdk/typescript/src/ws-source.ts:73-118 | Over every run: waiters on an open source have a socket or a reconnection up to, and not past, the first such event |
| WsSource.AvailableSocketsServe | sdk/typescript/src/ws-source.ts:73-118 | So where sockets can always be constructed nobody is ever stranded |
| WsSource.RefreshedExactlyUnlessStaled | sdk/typescript/src/ws-source.ts:120-156 | A recorded frame keeps a socket or a reconnection to replace it, exactly unless a reconnection finds no constructor or a torn-down socket delivers a frame |
| WsSource.StrandedWaiter | sdk/typescript/src/ws-source.ts:73-107 | The run in which a waiter is left with neither |
| WsSource.BackoffDoubles | sdk/typescript/src/ws-source.ts:98-107 | After n sockets in a row dropped unopened, the next delay is the n-th of the capped doubling |
| WsSource.BackoffIsCappedDoubling | sdk/typescript/src/ws-source.ts:98-101 | Each delay is twice the one before, from one second, up to thirty |
| WsSource.OpenRestartsBackoff | sdk/typescript/src/ws-source.ts:82-84 | Once a socket has opened, losing it is met with the shortest delay |
| WsSource.Source.GetSnapshot | sdk/typescript/src/ws-source.ts:49-62 | The call, up to its first suspension, is one step of the machine |
| WsSource.Source.HandleFrame | sdk/typescript/src/ws-source.ts:145-156 | A frame settles all waiters |
| WsSource.Source.OnIdleTimer | sdk/typescript/src/ws-source.ts:125-136 | The idle teardown is one step of the machine |
| WsSource.Source.CloseSource | sdk/typescript/src/ws-source.ts:64-71 | Closing is one step of the machine |
| Prices.HalfUpIsNearest | sdk/rust/src/prices/mod.rs:282-284 | The rounding is the unique integer within half a unit, halves up |
| Prices.HalfUpSeesRatio | sdk/rust/src/prices/mod.rs:282-300 | Rounding depends on the ratio alone |
| Prices.BaseUnitsSeeValue | sdk/rust/src/prices/mod.rs:253-258 | The intended amount depends on the decimal's value, not on its digits and scale |
| Prices.TsRoundsHalfUp | sdk/typescript/src/prices/index.ts:355-366 | TypeScript returns the half-up rounding exactly when it fits 256 bits, for every decimal |
| Prices.RustRoundsHalfUp | sdk/rust/src/prices/mod.rs:282-306 | Rust does so if and only if it is not zero with 78 or more powers of ten to gain |
| Prices.ZeroLosesItsUnits | sdk/rust/src/prices/mod.rs:286-288 | Two ways of writing zero, two results |
| Prices.PastTheLastPower | sdk/rust/src/prices/mod.rs:289-292 | A divisor past 256 bits does round everything to zero |
| Prices.HalfwayTest | sdk/rust/src/prices/mod.rs:293-299 | Comparing the remainder with its complement is the halfway test |
| Prices.ProductsAgree | sdk/typescript/src/prices/index.ts:310-324 | Products of equal values are equal, however written |
| Prices.ProductMeans | sdk/typescript/src/prices/index.ts:317-321 | The product of a rung's decimals has the product of their values |
| Prices.RungMeans | sdk/typescript/src/prices/index.ts:326-342 | A bid takes the volume and gives volume times price, an ask the reverse, each rounded half up in its own token's units; kept exactly if both fit and it takes something |
| Prices.LadderJoins | sdk/typescript/src/prices/index.ts:330-342 | A ladder is the conversions of its rungs, in order |
| Prices.RungsAgree | sdk/rust/src/prices/mod.rs:308-340 | Both SDKs convert a rung alike exactly outside two named cases; there Rust drops it |
| Prices.LaddersAgree | sdk/rust/src/prices/mod.rs:308-326 | The Rust ladder is the TypeScript ladder of the rungs Rust does not drop; every level takes input |
| Prices.ToLevels | sdk/typescript/src/prices/index.ts:326-342 | The pushing loop builds that ladder |
| Books.VenuesInFirstOrder | sdk/rust/src/prices/mod.rs:218-229 | The grouping names each venue once, in order of first appearance |
| Books.FirstLadderWins | sdk/rust/src/prices/mod.rs:230-243 | Each direction at most once per venue, with the first book's nonempty ladder, or absent if none has one |
| Books.GroupByListSearch | sdk/rust/src/prices/mod.rs:199-243 | The list-search loop computes that grouping |
| Books.GroupByMaps | sdk/typescript/src/prices/index.ts:251-301 | The loop over nested insertion-ordered maps computes the same grouping |
| Units.FormatThenParse | sdk/python/src/propamm/common/helpers.py:51-78 | For every value and number of decimals, formatting is canonical and parsing it gives the value back |
| Units.ParseThenFormat | sdk/python/src/propamm/common/helpers.py:51-78 | Canonical text survives parsing and formatting unchanged |
| Units.FormatIsStable | sdk/python/src/propamm/common/helpers.py:68-78 | Formatting any parsed text is a fixed point of a second parse and format |
| Units.ParseAcceptsExactly | sdk/python/src/propamm/common/helpers.py:51-65 | Accepted is exactly: digits, or digits, a point and at most as many digits as there are decimals |
| Units.ParseMeans | sdk/python/src/propamm/common/helpers.py:51-65 | The value read is the number the text denotes, scaled |
| Units.RustAgreesWithPython | sdk/rust/src/common/helpers.rs:44-73 | Up to 77 decimals Rust accepts exactly what Python reads as a 256-bit value, reads it the same, and never panics |
| Units.RustRoundTrip | sdk/rust/src/common/helpers.rs:75-86 | Up to 77 decimals every 256-bit value survives formatting and parsing with no intermediate overflow |
| Units.RustPanicsPastTheScale | sdk/rust/src/common/helpers.rs:62-64 | Past 77 decimals it panics on exactly the texts that get as far as the scale |
| FrameReader.XorIsBitwise | scripts/gas/titan_overrides.py:272 | The exclusive or of two bytes, bit by bit |
| FrameReader.MaskedAt | scripts/gas/titan_overrides.py:272 | Each byte is masked with the key's byte at its place modulo four, as section 5.3 has it |
| FrameReader.UnmaskInvertsMask | scripts/gas/titan_overrides.py:269-274 | Masking with one key twice restores the payload |
| FrameReader.ReaderFollowsRfcIffUnmasked | scripts/gas/titan_overrides.py:276-290 | A complete frame is decoded as the RFC says exactly when it is not masked; of a masked one the last four payload bytes are lost and four bytes left behind |
| FrameReader.MaskedFrameIsMisread | scripts/gas/titan_overrides.py:286-290 | A complete masked frame that is misread: its payload is lost and four bytes are left behind |
| FrameReader.ParseFollowsRfc | scripts/gas/titan_overrides.py:276-297 | On a stream without masked frames the reader sees the frames the RFC's framing gives |
| FrameReader.NetworkOrder | scripts/gas/titan_overrides.py:281-284 | Length fields are read most significant byte first |
| FrameReader.ReadUndoesEncode | scripts/gas/titan_overrides.py:279-285 | Reading recovers opcode and payload of a server frame in each of the three length forms, and leaves the rest |
| FrameReader.TruncatedFrameIsCut | scripts/gas/titan_overrides.py:263-267 | No frame is taken for complete before its last byte has arrived |
| FrameReader.ParseUndoesEncodeAll | scripts/gas/titan_overrides.py:276-297 | Reading a conforming server's stream recovers its frames |
| FrameReader.SessionDelivers | scripts/gas/titan_overrides.py:276-297 | Whatever a conforming server sends, every data payload is delivered and every ping answered with its own payload, in order, up to the first close or oversized ping |
| FrameReader.SessionEnds | scripts/gas/titan_overrides.py:276-297 | The session ends as that frame says, or with the stream, and leaves what follows unread |
| FrameReader.MessagesAreSuccessiveCalls | scripts/gas/titan_overrides.py:276-297 | Decoding the whole stream at once is successive calls, one message at a time |
| FrameReader.ClientFrameLayout | scripts/gas/titan_overrides.py:269-274 | What is sent is one final frame marked as masked, its key before the masked payload |
| FrameReader.ClientFrameDecodesIffShort | scripts/gas/titan_overrides.py:269-274 | A sent frame decodes to its payload exactly when that is at most 125 bytes |
| FrameReader.WebSocketReader.Take | scripts/gas/titan_overrides.py:257-267 | The next bytes of the stream, however it is chunked |
| FrameReader.WebSocketReader.RecvText | scripts/gas/titan_overrides.py:276-297 | What one call returns, sends and leaves is a function of the stream, not of the chunks |
| FrameReader.WebSocketReader.ReadMessages | scripts/gas/titan_overrides.py:327-335 | Successive calls yield what decoding the whole stream at once yields |

## Left out

- Gas, pausing, the reentrancy guard, access control, upgrades, initializer protection, `rescueTokens`, and the fallback quoter's setter: library behaviour or one-line guards.
- The other single-venue fee entrypoints and the caller-selected-venue ones: compositions of `SwapCore`, the skim and the same scan.
- The `quoteV1` and `quoteSelectedVenuesV1` wrappers: a best quote plus a check for zero.
- Tokens with transfer fees or rebasing, code run by an ether recipient (it accepts or refuses), and allowances other than as a predicate; ERC-20 transfers are all or nothing.
- The deadline handed on to venues: a constant of the call, so it is part of what a venue function may depend on.
- Hashing of the pair key: the sorted pair itself is the key.
- Other fields and events than `Swapped`.
- OpenZeppelin's enumerable set is not part of the repository; its documented swap-and-pop is modelled.
- CoreSwap.CallerPaysOnce: says nothing of a call made by the router itself or by the WETH contract, or with the router listed as a venue.
- Split.RunGuarantees: custody is not claimed for a call made by the router to itself, whose pull moves nothing.
- WsSource: the contents of snapshots, the unref of timers, and the Rust and Python loops; a late message from a torn-down socket is allowed because no handler excludes it, although conforming sockets are silent by then.
- Reading JSON numbers into decimals, address and venue tables, snapshot headers: Prices.RungsAgree takes two decimals of equal value as given.
- Units.RustAgreesWithPython: does not tell error kinds apart, since Rust counts bytes of a non-ASCII fraction and Python characters; Python's `isdigit` is limited to ASCII digits.
- Units.RustRoundTrip: `format_units` past 77 decimals panics in Rust on computing the scale; the shared `Format` has no such bound.
- FrameReader: the handshake, reassembly of fragmented messages (the code has none either), UTF-8 replacement, and socket timeouts, which end the caller's loop.
- State-override merging, RPC clients, TLS, other price sources, gas scripts' reports, the documentation site.
