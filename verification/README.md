# Verified model of the Nuntius price oracle and Pontifex bridge

This project models, in Dafny, the logic of the Nuntius price-oracle enclave, of the key exchange that
moves its signing key between enclave images, of the Pontifex bridge that signs claims, and of the relayer
and the pull API around them. It states what each part promises as theorems over all inputs, all runs or
all interleavings.

`dafny verify dfyconfig.toml` verifies the whole project.

## How it is organised

| part | modules |
|---|---|
| price computation | `Grid`, `GridOrder`, `Ladders`, `Clearing`, `OrderBook`, `OrderStats`, `Aggregator`, `DeviationCap`, `WeightedMedian`, `VolumeCaps`, `BookReader`, `BookGate`, `OneVenue`, `Publish` |
| key exchange | `Policy`, `Quorum`, `Boot`, `OracleState`, `Fleet`, `Ratls` |
| bridge | `Chain`, `Claims`, `Bridge` |
| relayer and pull API | `RateLimiter`, `TxQueues`, `Relay` |
| encodings | `Numerals`, `Abi`, `Der` |
| shared | `Wrappers`, `Numbers`, `Collections`, `Sums` |

Modelling choices that hold throughout:

- Floats are exact reals. `NaN` and the infinities are values of their own where the source tests for them
  (`Aggregator.Sanitize`, `Aggregator.ToFixedPoint`). Casts to `u64` and `i64` saturate as in the source.
- Integer sums that can wrap in a release build (the mean of two clocks, the claim deadline) wrap in the
  model, and the theorems say exactly when that matters.
- Signatures, digests, attestation documents, key derivation, address parsing and endpoint normalisation
  are arbitrary functions. Peers, registries, JSON-RPC nodes and the transaction node may answer anything.
- Objects that the source updates in place are classes. Each method is tied to a function of the old state,
  and the theorems are about that function. Concurrent parts (fleet, bridge, queue, relayer) are state
  machines whose steps are the stretches between two suspension points.

## Main results

- **Clearing is an optimum.** The clearing loop over two sorted maps matches exactly the largest volume any
  single grid price can execute, and leaves the two books with exactly that volume taken from the highest
  bids and lowest asks (`Clearing.ClearingIsOptimal`; for arbitrary quantities up to the deleted dust,
  `Clearing.ClearingIsNearOptimal`). In whole units the fair value is the middle of two marginal keys that
  are defined without the loop (`OrderBook.FairValueClosedForm`), and there is one exactly when the optimum
  exhausts neither side (`OrderBook.FairValueExists`). An entry stored from books holds that
  middle of the kept books, times the rate in force (`Publish.StoredBook`, `Publish.BookClosedForm`).
- **Clearing cannot leave the books' own mids.** However much uncrossed books cross each other, the fair
  value lies between two of their mids (`OrderBook.FairValueWithinMids`). With the gate's bound on surviving
  mids, a minority of venues cannot carry the consolidated price out of the survivors' band, nor the stored
  fixed-point price out of that band times the rate (`BookGate.GatedFairValueIsBounded`,
  `Publish.PublishedBookIsBounded`).
- **Breakdown points.** A strict majority of sample prices in a band pins the stored fixed-point price to the
  band widened by the cap (`Publish.PublishedPriceIsBounded`). A majority of sample clocks pins the signed
  clock through two medians and a filter, exactly while its window ends below 2^63
  (`Aggregator.ClockMajorityDecidesExactly`). For books the reference clock
  is pinned by a majority of the candidates and the signed second by a majority of the books that are fresh
  and well quoted, with the exact counts (`BookReader.BookClockMajorityDecides`,
  `BookReader.SignedSecondWithin`, `BookReader.SignedStampExactly`).
- **A key never goes back.** Over every run of a fleet of enclaves, installed keys are listed by the
  registry, hops to other images are carried by an approval of a strictly newer version, and so no path of
  handovers leads to an older image (`Fleet.KeyNeverGoesBack`). Every installed key descends from a mint
  along such hops (`Fleet.InstalledKeyDescends`), and what leaves the fleet is under the same rule
  (`Fleet.ExportsAreCarried`).
- **Paired exchange.** With any loss and any write fault, a client installs exactly the key its server
  granted, after both sides' checks passed (`Ratls.InstalledKeyWasGranted`).
- **Money path.** Over every interleaving of requests with the boot thread, each bridge grant is the image's
  signature over a vouched-for, deep enough, positive total, and totals per recipient never decrease
  (`Bridge.EveryGrantIsSound`, `Bridge.GrantBlockIsDeep`).
- **Evicting limiter refines an unbounded one**, and grants over any span are bounded
  (`RateLimiter.ActsUnbounded`, `RateLimiter.CapRespectedMeansUnbounded`, `RateLimiter.GrantsAreBounded`).
- **Queue and relayer.** Completions come in push order, at most three sends each, one outstanding intent
  per asset (`TxQueues.CompletesInPushOrder`, `Relay.OneOutstandingPerAsset`).
- **Strict decoders.** ABI, quantity and DER readers against independent encoders or an independent grammar
  (`Abi.DecodesExactlyEncodings`, `Numerals.QuantityIsStrict`, `Der.AcceptsExactly`).

## Where the code departs from what one would expect

Each of these is a theorem about the code as it is. Where the text says "exactly", both directions are proved.

- The mean of two clocks is taken in `u64`. A majority decides the clock exactly when its window ends below
  2^63 (`Aggregator.ClockMajorityDecidesExactly`); for every later time three of four agreeing clocks are all
  dropped (`Aggregator.ClockMeanWraps`).
- The five-fold volume cap keeps every source under half of the weight from ten positive-volume samples on
  (`VolumeCaps.NoSourceHoldsHalf`). For every number from two to nine there are samples of which one moves
  the price out of the others' range (`VolumeCaps.FewerThanTenCanBeMoved`).
- A sample without volume weighs 1 next to capped volumes. As the highest price it decides exactly when the
  others weigh less than 1 together, as the lowest exactly when they weigh at most 1
  (`VolumeCaps.SourceWithoutVolumeDecides`).
- The common grid does not depend on the order of the books, exactly but for two kinds of lists with ticks
  below half of 1e-10 that `GridOrder.Steady` names (`GridOrder.GridIsOrderFree`).
- The reference clock counts every two-sided stamped book, the signed second only those that are also fresh
  and well quoted. A majority of the former pins the second when none of its books is badly quoted
  (`BookReader.CandidateMajoritySuffices`); when badly quoted books make up its surplus, a later minority
  sets it (`BookReader.BadQuotesMoveTheClock`). The exact counts are in `BookReader.SignedStampExactly`.
- The gate on order-book mids is open with fewer than three mids or a deviation below 1e-10, and then rejects
  nothing, because it sets no cap (`BookGate.OpenGateKeepsAll`, `BookGate.AgreementOpensGate`). The best bid
  then decides the price exactly when it is deeper than all that is asked at it and below
  (`OneVenue.BestBidDecidesGated`); one of four venues doubles it while the others agree
  (`OneVenue.OneVenueDoublesThePrice`). The gate keeps books by source name (`BookGate.KeptByName`).
- A book whose best bid and best ask round to one grid key crosses itself, and clearing carries the fair value
  away from its mid (`OneVenue.TouchingTopsLeaveTheMid`).
- Raising the live quorum threshold can turn a rejection into an acceptance only from zero
  (`Quorum.ZeroLiveThresholdRefuses`).
- In a session where nothing is lost and both sides accept, the client installs the granted key, and the
  server still reports an error exactly when the write of the grant reports failure
  (`Ratls.UndisturbedSessionInstalls`).
- The claim deadline leaves 3000 to 3600 seconds on both clocks exactly when the 64-bit sum does not wrap
  (`Claims.DeadlineWithinClocks`).
- The fixed-point multiplier wraps from 20 decimals on, and every accepted price is encoded faithfully
  exactly below that (`Aggregator.MultiplierIsExact`, `Aggregator.EncodingIsFaithfulExactly`). The publish
  cycle uses eight.
- The relayer recovers an asset's symbol from a transaction label exactly when the symbol is non-empty and
  free of white space (`Relay.LabelCarriesSymbol`), and exactly then do all runs of the asset keep its
  outstanding intents its own (`Relay.OwnershipExactly`). Any other asset stays in the submitting state once
  it has entered it (`Relay.UncleanSymbolIsStuck`, `Relay.UncleanIsStranded`), and its completions may
  release an asset that is still waiting (`Relay.MisnamedReleasesAnother`).
- The relayer marks an asset as submitting before it looks up the contract address. A lookup that throws
  strands the asset for good, and over every run no asset waits for nothing exactly when none threw
  (`Relay.ThrowStrands`, `Relay.StrandedForGood`, `Relay.WaitedExactly`).
- `src/types.rs` lines 24 to 28 describe the deviation threshold as a band in which no sample is an outlier and
  which never drops extra ones. The code, as `src/aggregator/mod.rs` says of itself, takes it as a second
  limit (`DeviationCap.CapIsASecondFilter`). It drops nothing extra exactly when all survivors without it are
  in the band (`DeviationCap.CapDropsNothingExactly`), and keeps the band exactly when all of it is within
  the other limit (`DeviationCap.BandIsKeptExactly`). An input fails each half
  (`DeviationCap.ThresholdDropsExtra`, `DeviationCap.ThresholdKeepsNoOutlier`).
- The quantity parser takes upper-case digits. The DER reader takes superfluous length bytes, empty and
  negative integers, and bytes left in or after the sequence (`Der.AcceptsExactly`); a negative integer is
  read as an unsigned one (`Der.FieldsAreSignedExactly`).

## Model

| member | source | states |
|---|---|---|
| `Grid.GcdU64` | src/cob.rs:137-144 | the loop computes the `Gcd` that divides both numbers and is divided by every common divisor |
| `Grid.GcdDividesBoth` | src/cob.rs:137-144 | the result divides both arguments |
| `Grid.GcdIsGreatest` | src/cob.rs:137-144 | every common divisor divides the result |
| `Grid.ComputeCommonGrid` | src/cob.rs:153-171 | the loop over the books' ticks yields `CommonGrid`, fallback included |
| `Grid.GridIsGcd` | src/cob.rs:153-171 | on ticks that are whole multiples of 1e-10 the grid is their greatest common divisor as real multiples, and zero when no tick is positive |
| `Grid.GridOrderIndependent` | src/cob.rs:153-171 | on ticks that are whole multiples of 1e-10 the grid depends only on their set, not on order or repetition |
| `GridOrder.RawGridShape` | src/cob.rs:153-171 | for any ticks: the value the loop ends with, from the numbers of ticks that round to zero units and of those that do not |
| `GridOrder.GridIsOrderFree` | src/cob.rs:153-171 | the grid is the same in every order of the books exactly when the ticks are steady |
| `GridOrder.NoTinyIsSteady` | src/cob.rs:153-171 | which they are whenever no positive tick rounds to zero units |
| `Grid.OnTickPriceIsExact` | src/cob.rs:202-217 | a price on some book's tick projects to a key whose grid multiple is exactly that price |
| `Clearing.RoundFacts` | src/cob.rs:219-240 | one round takes the crossing volume, plus less than the dust, from the best level of each side only, and deletes at least one level |
| `Clearing.ClearCrossing` | src/cob.rs:219-240 | the loop over the two maps equals `Clear` and ends uncrossed |
| `Clearing.ClearTerminates` | src/cob.rs:219-240 | it ends uncrossed within one round per level |
| `Clearing.NoPriceBeatsClearing` | src/cob.rs:219-240 | no price executes more than was matched plus one dust per round |
| `Clearing.SomePriceExecutesAll` | src/cob.rs:219-240 | some price between best ask and best bid executes all that was matched |
| `Clearing.Conservation` | src/cob.rs:219-240 | both sides lose what was matched and at most one dust per round more |
| `Clearing.ResidualBids` | src/cob.rs:219-240 | at every key the residual bid is the original with the removed volume taken from the highest keys first |
| `Clearing.ResidualAsks` | src/cob.rs:219-240 | the same for asks, lowest keys first |
| `Clearing.BestBidLeft` | src/cob.rs:219-244 | the best bid left is the highest key whose depth exceeds the removed volume, in both directions |
| `Clearing.BestAskLeft` | src/cob.rs:219-244 | the best ask left is the lowest such key, in both directions |
| `Clearing.QuantizedRound` | src/cob.rs:219-240 | in whole units of at least the dust, deleting a level discards nothing |
| `Clearing.QuantizedConservation` | src/cob.rs:219-240 | in whole units bid volume removed equals ask volume removed equals volume matched |
| `Clearing.ClearingIsOptimal` | src/cob.rs:219-240 | in whole units the matched volume is the maximum over all keys of the smaller of bid depth and ask depth, and the residual books are the originals less exactly that volume |
| `Clearing.ClearingIsNearOptimal` | src/cob.rs:219-240 | for any quantities the same up to one dust per level |
| `Clearing.BestsStayBetween` | src/cob.rs:219-244 | a bid below every ask and an ask above every bid are never matched, and the bests left lie between them and the bests there were |
| `Clearing.BestBidDecides` | src/cob.rs:219-244 | in whole units the best bid and the first ask above it are the bests left exactly when that bid exceeds all that is asked at it and below |
| `OrderBook.ProjectLevels` | src/cob.rs:202-217 | the projection loop sums the positive levels of one book into the ladder |
| `OrderBook.ConsolidatedOrderBook` | src/cob.rs:188-261 | the whole computation, run with the loops of the source, equals `FairValueOf` |
| `OrderBook.ProjectHoldsTotals` | src/cob.rs:199-217 | the ladder holds at every key the books' total there |
| `OrderBook.FairValueDependsOnTotals` | src/cob.rs:188-261 | book lists of equal length and grid with equal totals per key have the same fair value |
| `OrderBook.FairValueOrderIndependent` | src/cob.rs:188-261 | reordering books never changes the fair value, for all steady ticks |
| `OrderBook.FairValueSplitIndependent` | src/cob.rs:188-261 | splitting a level at the same key never changes the fair value |
| `OrderBook.FairValueIsUncrossed` | src/cob.rs:242-261 | best bid < fair value < best ask |
| `OrderBook.MarginalKeys` | src/cob.rs:219-261 | in whole units the best keys left are marginal to the largest executable volume |
| `OrderBook.FairValueClosedForm` | src/cob.rs:188-261 | in whole units the fair value is the middle of the two keys marginal to the largest executable volume, without reference to the loop |
| `OrderBook.FairValueExists` | src/cob.rs:188-261 | in whole units there is a fair value exactly when the largest executable volume exhausts neither side |
| `OrderBook.FairValueWithinMids` | src/cob.rs:188-261 | of books that are each uncrossed on the grid a fair value exists and lies between the mids of two of them |
| `OrderBook.InOrderIsUncrossed` | src/cob.rs:202-217 | a book with its best levels first and on different keys is uncrossed on the grid, and its mid there is within half a step of the mid of its top levels, or equal to it when they are on the grid |
| `OrderBook.StepApart` | src/cob.rs:202-217 | top levels at least one grid step apart fall on different keys |
| `OrderBook.OnGridApart` | src/cob.rs:202-217 | and so do different prices on the grid |
| `OrderStats.MiddlesWithin` | src/aggregator/mod.rs:101-114 | a strict majority of keys in a window puts both middle elements of the sorted list in it |
| `OrderStats.RankExactly` | src/cob.rs:444-454 | the element of a given rank lies in a window exactly by the numbers of keys below and above it |
| `Aggregator.Sanitize` | src/aggregator/mod.rs:52-63 | exactly the samples with a finite positive price and a non-zero clock pass, each with its volume zeroed when broken |
| `Aggregator.MedianTimeWithin` | src/aggregator/mod.rs:69-82 | a strict majority of clocks in a window below 2^63 puts the median clock in it |
| `Aggregator.ClockMajorityDecides` | src/aggregator/mod.rs:89-97 | a strict majority within 300 s keeps all its samples and the final clock lies in its window, through both medians |
| `Aggregator.ClockMeanWraps` | src/aggregator/mod.rs:69-82 | the bound is exact: for every time from 2^63 on, three of four agreeing clocks give a median 2^63 too low and are all dropped |
| `Aggregator.ClockMajorityDecidesExactly` | src/aggregator/mod.rs:69-97 | a majority within 300 s decides the signed clock, whatever the others report, exactly when its window ends below 2^63 |
| `Aggregator.MajorityPinsMedianAndMad` | src/aggregator/mod.rs:205-238 | a strict majority of prices in a band pins the median to the band and the deviation to its width |
| `Aggregator.SurvivorsAreNear` | src/aggregator/mod.rs:205-238 | every survivor of at least three samples is within the cap and within sigma scaled deviations of the median |
| `Aggregator.HalfSurvives` | src/aggregator/mod.rs:205-238 | without a cap and with sigma * 1.4826 >= 1 at least half of the samples survive |
| `DeviationCap.CapIsASecondFilter` | src/aggregator/mod.rs:205-238 | with a threshold the survivors are those without one that also lie in its band |
| `DeviationCap.CapDropsNothingExactly` | src/types.rs:24-28 | it drops nothing extra exactly when every survivor without it is in its band |
| `DeviationCap.BandIsKeptExactly` | src/types.rs:24-28 | every sample in its band survives exactly when each is within the median-deviation limit |
| `DeviationCap.ThresholdDropsExtra` | src/types.rs:24-28 | at prices 100, 100, 100 and 102 with 100 bps, 102 is dropped only because of the threshold |
| `DeviationCap.ThresholdKeepsNoOutlier` | src/types.rs:24-28 | at prices 101, 101, 102 and 110 with 1000 bps, 110 is in the band and dropped |
| `Aggregator.ConvertQuotesToUsd` | src/aggregator/mod.rs:247-256 | the in-place loop scales exactly the USDT-quoted prices and leaves the rest, or everything when the rate is unusable |
| `Aggregator.ConvertedStaysClean` | src/aggregator/mod.rs:247-256 | clean samples stay finite and positive after conversion |
| `Aggregator.FixedPointIsFaithful` | src/aggregator/mod.rs:278-299 | below 20 decimals every accepted price is encoded to within half a unit of the scaled price; up to 18 exactly the finite positive prices up to the maximum are accepted |
| `Aggregator.MultiplierIsExact` | src/aggregator/mod.rs:292 | the 64-bit multiplier is the power of ten exactly up to 19 decimals |
| `Aggregator.OneIsUnfaithful` | src/aggregator/mod.rs:292-298 | from 20 decimals on the price 1 is accepted and encoded wrongly |
| `Aggregator.EncodingIsFaithfulExactly` | src/aggregator/mod.rs:278-299 | every price is encoded faithfully or refused exactly below 20 decimals |
| `WeightedMedian.ComputeWeightedMedian` | src/aggregator/mod.rs:122-190 | the method equals `WeightedMedianOf`, reports the weighting mode and counts exactly the equal-weight fallbacks |
| `WeightedMedian.FirstToReach` | src/aggregator/mod.rs:175-190 | the accumulating loop returns the first price whose running weight reaches half, or the last price |
| `WeightedMedian.ResultIsWeightedMedian` | src/aggregator/mod.rs:122-190 | the result is an input price with strictly less than half the weight below it and at least half at or below it |
| `WeightedMedian.WeightedMedianUnique` | src/aggregator/mod.rs:122-190 | no other price has that property |
| `WeightedMedian.WeightedMedianOrderIndependent` | src/aggregator/mod.rs:122-190 | permuting the samples does not change the result |
| `WeightedMedian.MinorityCannotMove` | src/aggregator/mod.rs:122-190 | samples with less than half the weight cannot pull the result out of the others' range |
| `VolumeCaps.NoSourceHoldsHalf` | src/aggregator/mod.rs:133-173 | in volume mode with ten or more positive-volume samples, none of them holds half the weight |
| `VolumeCaps.OneSourceCannotMove` | src/aggregator/mod.rs:122-190 | so one positive-volume source cannot move the result out of the others' price range |
| `VolumeCaps.FewerThanTenCanBeMoved` | src/aggregator/mod.rs:122-190 | for every count from two to nine there are samples of which one holds more than half of the weight and sets the price, out of the others' range |
| `VolumeCaps.ResultExactly` | src/aggregator/mod.rs:122-190 | a price is returned exactly when it is the weighted median |
| `VolumeCaps.TopSourceDecides` | src/aggregator/mod.rs:122-190 | a sample priced above all others sets the price exactly when it outweighs them together |
| `VolumeCaps.BottomSourceDecides` | src/aggregator/mod.rs:122-190 | one priced below all others exactly when they do not outweigh it together |
| `VolumeCaps.SourceWithoutVolumeDecides` | src/aggregator/mod.rs:164-190 | a sample without volume sets the price as the highest exactly when the others weigh less than 1 together, as the lowest exactly when they weigh at most 1 |
| `BookReader.BookClockMajorityDecides` | src/cob.rs:444-516 | a strict majority of candidate books within 5000 ms puts the reference clock in its window and loses none of its books as stale |
| `BookReader.ReadBooksAre` | src/cob.rs:482-549 | the books read are the fresh, well-quoted candidates, each as often as in the state |
| `BookReader.SignedSecondWithin` | src/main.rs:425-435 | a strict majority of the books that are fresh and well quoted puts the signed second in its window |
| `BookReader.SignedStampExactly` | src/main.rs:425-435 | the stamp behind the signed second lies in a window exactly by the numbers of usable books before and after it |
| `BookReader.CandidateMajoritySuffices` | src/cob.rs:433-463 | a majority of the candidates pins the signed second when its own books are well quoted |
| `BookReader.BadQuotesMoveTheClock` | src/cob.rs:380-427 | and does not when badly quoted books make up its surplus over later ones |
| `BookReader.BadQuotesExample` | src/cob.rs:380-427 | such books of five sources exist |
| `BookReader.ReadIsDeterministic` | src/cob.rs:547 | with one book per source the result does not depend on the order of the state |
| `BookGate.KeptByName` | src/cob.rs:296-354 | a book is consolidated exactly when some book of the same source passed |
| `BookGate.DistinctSourcesAreGated` | src/cob.rs:296-354 | with distinct sources a book is consolidated exactly when it passed itself |
| `BookGate.GatedConsolidatedOrderBook` | src/cob.rs:296-354 | the method equals `GatedFairValue`, in the order of the checks of the source |
| `BookGate.OpenGateKeepsAll` | src/cob.rs:296-354 | an open gate keeps every usable two-sided book |
| `BookGate.AgreementOpensGate` | src/cob.rs:296-354 | a majority of mids in a band narrower than 1e-10 opens the gate |
| `BookGate.GateBoundsMids` | src/cob.rs:296-354 | a gate that is not open keeps every surviving mid within 4.4478 band widths of the majority's band |
| `BookGate.GatedFairValueIsBounded` | src/cob.rs:296-354 | with one book per source, each with its best levels first and on different keys, the consolidated fair value then exists exactly when both quorums hold, and lies in that band widened by half a grid step, or by nothing when the top levels are on the grid |
| `OneVenue.BestBidDecidesGated` | src/cob.rs:296-354 | through an open gate, in whole units, the fair value is the middle of the best bid and the first ask above it exactly when that bid is deeper than all the books ask at it and below |
| `OneVenue.OneVenueDoublesThePrice` | src/cob.rs:296-354 | three well-quoted venues agree on 10000 and a fourth sets the gated fair value to 20000.5 |
| `OneVenue.TouchingTopsLeaveTheMid` | src/cob.rs:202-244 | a book whose top levels share a key has a fair value away from its mid |
| `Publish.Oracle.ResolveRate` | src/main.rs:659-677 | the cycle's rate, else a fresh cached one, else par, and par alone is counted |
| `Publish.Oracle.AggregateRest` | src/main.rs:495-612 | sanitize, convert, reject, clock and median filter in the source's order |
| `Publish.Oracle.PublishBook` | src/main.rs:418-493 | reads, gates, consolidates and signs the books of the asset's base, and stores exactly when the converted price can be encoded |
| `Publish.Oracle.PublishRest` | src/main.rs:495-627 | stores the aggregate when it can be encoded, and sets the cycle rate for USDT/USD |
| `Publish.Oracle.PublishAsset` | src/main.rs:410-627 | one asset's step: books first, the samples when they yield nothing |
| `Publish.Oracle.RunCycle` | src/main.rs:383-627 | the loop, with USDT/USD sorted first, is the fold of the steps |
| `Publish.StoreStaysSane` | src/main.rs:383-627 | whatever is fetched, every stored entry stays a sane fixed-point price through every cycle |
| `Publish.PriceIsASurvivor` | src/main.rs:534-612 | the aggregate is the price of a sample that survived outlier rejection |
| `Publish.AggregateNearMajority` | src/main.rs:534-612 | with three samples and a majority in a band, the aggregate is within cap and deviation limits of a median in the band |
| `Publish.PublishedPriceIsBounded` | src/main.rs:495-627 | with at least three samples, a majority in [lo, hi] and cap c, the step leaves the store or stores a price in [lo(1-c), hi(1+c)] whose fixed-point form is within half a unit of 1e-8 |
| `Publish.StoredBook` | src/main.rs:418-493 | an entry stored from books is the gated fair value of the books read times the rate in force, to within half a unit, with their median second |
| `Publish.BookClosedForm` | src/main.rs:418-450 | in whole units that fair value is the middle of the keys marginal to the largest executable volume of the kept books |
| `Publish.BookIsBounded` | src/main.rs:418-450 | through a gate that is not open it is positive and lies in the survivors' band |
| `Publish.PublishedBookIsBounded` | src/main.rs:418-493 | and the stored fixed-point price, to half a unit, in that band times the positive rate in force |
| `Publish.OneRatePerCycle` | src/main.rs:380-412 | USDT/USD comes first in whatever order the assets are configured, and every other asset finds the cycle rate it left, or none |
| `Policy.DecideHandover` | crates/keyex/src/policy.rs:116-181 | the one-pass loop with its flags equals the first decisive approval, else the most specific refusal |
| `Policy.HandsOverExactly` | crates/keyex/src/policy.rs:116-181 | the key itself is handed over exactly to the same image or under a newer carry no child approval precedes, a child exactly under a child approval no newer carry precedes, and a candidate never |
| `Policy.OwnKeyNeedsNewerCarry` | crates/keyex/src/policy.rs:116-181 | the key itself leaves for another image only under a carry of that image, for this role, strictly above our version |
| `Policy.ChildNeedsApproval` | crates/keyex/src/policy.rs:116-181 | a child key is derived only by an oracle, for another image, under a child approval with that label |
| `Policy.GrantIsMonotone` | crates/keyex/src/policy.rs:116-181 | more approvals never change a decision that already granted |
| `Quorum.EffectiveQuorum` | crates/keyex/src/approval.rs:105-135 | the loop yields the distinct owners common to both lists and the larger threshold, or the error |
| `Quorum.VerifyApprovals` | crates/keyex/src/approval.rs:141-196 | the loop accepts exactly when enough distinct owners signed an unexpired request |
| `Quorum.LiveAcceptedMeans` | crates/keyex/src/approval.rs:105-196 | acceptance under the narrowed quorum, as one count of common signing owners against both thresholds, in both directions |
| `Quorum.NarrowingRefines` | crates/keyex/src/approval.rs:105-196 | what the narrowed quorum accepts, the baked and the live quorum each accept alone |
| `Quorum.NarrowingIsMonotone` | src/keyex_oracle/control.rs:288-292 | fewer live owners or a higher positive live threshold never turn a rejection into an acceptance |
| `Quorum.ZeroLiveThresholdRefuses` | crates/keyex/src/approval.rs:105-135 | threshold zero is the one exception |
| `Quorum.SignatureOrderIrrelevant` | crates/keyex/src/approval.rs:141-196 | order and repetition of signatures do not matter |
| `Boot.FirstRegistered` | crates/keyex/src/boot.rs:48-58 | the sweep finds the first address reported registered, with every earlier one reported unregistered, or none, or a fault |
| `Boot.BootLoop.Step` | crates/keyex/src/driver.rs:56-113 | one tick: sweep, decision and the candidate kept across ticks |
| `Boot.BootLoop.Run` | crates/keyex/src/driver.rs:118-136 | the loop ticks through every fault until a key is installed |
| `Boot.StepNeverFailsInternally` | crates/keyex/src/driver.rs:56-113 | both errors the driver calls impossible are unreachable, and a bridge neither generates nor installs a candidate |
| `Boot.OracleInstallsReported` | crates/keyex/src/boot.rs:48-82 | an oracle's tick finishes only with a key whose address the registry listed in answer to a query of that tick |
| `Boot.FirstRegisteredPeerWins` | crates/keyex/src/boot.rs:48-58 | the first registered swept key wins over any candidate, for both roles |
| `Boot.MintsAtMostOnce` | crates/keyex/src/driver.rs:56-136 | over every run a candidate is minted at most once, is held exactly then, and never by a bridge |
| `Boot.CandidateSurvives` | crates/keyex/src/driver.rs:56-136 | over every run a held candidate survives faults until it is installed or superseded by a peer key reported registered in the tick that installed it |
| `Boot.OracleRunInstallsReported` | crates/keyex/src/driver.rs:118-136 | over every oracle run the installed address was reported registered in the very tick that installed it |
| `OracleState.BoundedPeers` | src/keyex_oracle/state.rs:66-79 | the loop equals `Bounded` |
| `OracleState.BoundedFacts` | src/keyex_oracle/state.rs:66-79 | at most sixteen endpoints, all canonical forms of given ones, none twice |
| `OracleState.BoundedIsComplete` | src/keyex_oracle/state.rs:66-79 | no well-formed endpoint is left out unless the list is full |
| `OracleState.BakedPeersComeFirst` | src/keyex_oracle/state.rs:143-151 | hints can neither displace nor reorder baked peers |
| `OracleState.OracleKeyexState.PublishCandidate` | src/keyex_oracle/state.rs:110-116 | publishing sets signer, source and the waiting state, and never touches the root key |
| `OracleState.OracleKeyexState.InstallKey` | src/keyex_oracle/state.rs:118-134 | installing sets root, signer, source and readiness together |
| `OracleState.OracleKeyexState.AddApproval` | src/keyex_oracle/state.rs:137-141 | an approval is appended unless it is already there |
| `OracleState.OracleKeyexState.SetPeerHints` | src/keyex_oracle/state.rs:143-146 | only the hints change, to the bounded list |
| `OracleState.OracleKeyexState.PeerSnapshot` | src/keyex_oracle/state.rs:148-151 | baked peers first, then hints, bounded |
| `OracleState.ApprovalReply` | src/keyex_oracle/control.rs:242-286 | an approval is recorded exactly when admissible; a failed live read refuses and never falls back to the baked owners |
| `OracleState.Configure` | src/keyex_oracle/control.rs:159-224 | only peer hints are taken, and only for the baked registry |
| `OracleState.ApprovalsAreTheGranted` | src/keyex_oracle/control.rs:242-286 | over every run of requests and boot writes the approvals held are exactly those of the granted requests, each once |
| `OracleState.RecordedApprovalsAreBaked` | src/keyex_oracle/control.rs:242-292 | over every run each approval held came from a request on the baked chain that met the baked quorum when answered, whatever the live read said |
| `Fleet.NextKeeps` | src/keyex_oracle/mod.rs:178-207 | every step of every enclave, connection, approval and registration keeps the fleet invariant |
| `Fleet.RunKeeps` | src/keyex_oracle/mod.rs:178-207 | hence every run does |
| `Fleet.InstalledKeysAreListed` | src/keyex_oracle/state.rs:110-134 | in every run an enclave holds a root key exactly when ready, the key is listed and traced to a handover or its own genesis |
| `Fleet.ListedBeforeInstall` | src/keyex_oracle/mod.rs:338-363 | the key is listed already when it is installed |
| `Fleet.ServedKeysAreListed` | src/keyex_oracle/handover.rs:214-275 | a handover connection serves only listed keys, and a candidate is never served |
| `Fleet.HopsAreCarried` | crates/keyex/src/policy.rs:116-181 | each hop to a different image is under an oracle-scoped carry held by the giver, above its version |
| `Fleet.ExportsAreCarried` | crates/keyex/src/policy.rs:116-181 | the same for every grant to a client outside the fleet, and only a listed key or a child of one leaves |
| `Fleet.InstalledKeyDescends` | src/keyex_oracle/mod.rs:178-207 | in every run an installed key descends from a mint along logged hops, and when each passed the key itself it is the minted key, on an image no older |
| `Fleet.OutsideIsRefused` | crates/keyex/src/policy.rs:233-266 | a fetch from outside the trusted images is refused |
| `Fleet.PathGoesUp` | crates/keyex/src/policy.rs:116-181 | along any path of hops versions do not fall, and stay equal only on one image |
| `Fleet.KeyNeverGoesBack` | crates/keyex/src/policy.rs:116-181 | in every run with true approvals a path of handovers ends on a strictly newer image unless it stayed on one image |
| `Ratls.TakeFromPrefix` | crates/keyex/src/ratls.rs:362-383 | a frame read from any prefix of a wire is the wire's first frame |
| `Ratls.NonceAndDocExchange` | crates/keyex/src/ratls.rs:385-408 | writes and reads in the source's order over a faulty stream equal `Open` |
| `Ratls.ServerExchange` | crates/keyex/src/ratls.rs:477-548 | the stream and outcome equal `Serve`, and the key copy is wiped on every return path |
| `Ratls.ClientExchange` | crates/keyex/src/ratls.rs:557-611 | the stream and outcome equal `Fetch` |
| `Ratls.GrantNeedsEveryCheck` | crates/keyex/src/ratls.rs:477-548 | a grant is written only after attestation, nonce, TLS point and policy all passed, and carries the entitled key |
| `Ratls.OutcomeMatchesGrant` | crates/keyex/src/ratls.rs:477-548 | a refusal never wrote a grant, a reported handover always did |
| `Ratls.InstalledKeyWasGranted` | crates/keyex/src/ratls.rs:477-611 | in every paired run the client installs exactly the granted key, each side judged the other's own attestation over its nonce, and both judgements passed |
| `Ratls.RefusalInstallsNothing` | crates/keyex/src/ratls.rs:477-611 | after a refusal the client installs nothing |
| `Ratls.UndisturbedSessionInstalls` | crates/keyex/src/ratls.rs:477-611 | with nothing lost, no fault in the opening, acceptable documents and a granting policy the client installs the key; the server reports the handover exactly when its last write reports success, else an error |
| `Chain.ReadIsVouched` | crates/keyex/src/chain.rs:90-174 | a total is returned only if the node reported a finalized height and a head, the height is the older of finalized and depth below head, and header, total, reread header and second total agree |
| `Chain.VouchedIsRead` | crates/keyex/src/chain.rs:90-174 | and every total so vouched for is returned |
| `Chain.HonestReadSucceeds` | crates/keyex/src/chain.rs:90-174 | against a truthful node the read returns the ledger's total at that height, and refuses exactly when the chain is shorter than the depth |
| `Chain.HexRoundTrip` | crates/keyex/src/chain.rs:347-350 | decoding inverts hex encoding |
| `Chain.BurnedRoundTrips` | crates/pontifex-bridge/src/handler.rs:152-157 | every burned total survives its decimal print and parse, which the ratchet needs |
| `Claims.DeadlineWithinClocks` | crates/keyex/src/claim.rs:99-106 | refused exactly beyond 600 s of skew; otherwise in [max+3000, min+3600] exactly when the sum does not wrap |
| `Claims.DeadlineWraps` | crates/keyex/src/claim.rs:99-106 | at the end of the range the deadline wraps into the past |
| `Claims.GrantMeans` | crates/pontifex-bridge/src/claimflow.rs:36-86 | a grant is given exactly when the total was read, is payable and not below the mark, the clocks agree and the signer works, and it is the signature over those values |
| `Claims.HonestClaimIsGranted` | crates/pontifex-bridge/src/claimflow.rs:36-86 | against truthful nodes a payable claim is granted with the ledger's total |
| `Bridge.BridgeState.InstallKey` | crates/pontifex-bridge/src/state.rs:42-50 | once only: a second key is ignored |
| `Bridge.BridgeState.RecordSigned` | crates/pontifex-bridge/src/state.rs:96-101 | the recipient's mark becomes the maximum, all others stay |
| `Bridge.BridgeState.Configure` | crates/pontifex-bridge/src/handler.rs:91-110 | accepted exactly before a key, for the baked entry and non-empty https endpoints; identity comes from the image |
| `Bridge.BridgeState.SignClaim` | crates/pontifex-bridge/src/handler.rs:115-159 | the reply and the recorded mark as functions of the state, in the source's order of refusals |
| `Bridge.BootThread.ReadConfig` | crates/pontifex-bridge/src/runner.rs:68-76 | a tick starts with the configuration stored at that moment |
| `Bridge.BootThread.Tick` | crates/pontifex-bridge/src/runner.rs:93-126 | a key is installed only while the stored endpoints and peers equal the tick's |
| `Bridge.BootThread.StoreFlag` | crates/pontifex-bridge/src/runner.rs:112-114 | the flag is set after the key |
| `Bridge.NextKeepsBoot` | crates/pontifex-bridge/src/runner.rs:68-127 | every request and boot step keeps the boot invariant |
| `Bridge.InstalledUnderTickConfig` | crates/pontifex-bridge/src/runner.rs:104-116 | in every interleaving a key appears only at the end of a tick, given by a peer in it, under the very configuration the tick used |
| `Bridge.ConfigIsFrozen` | crates/pontifex-bridge/src/handler.rs:91-110 | in every interleaving neither key nor configuration changes after installation |
| `Bridge.ReadinessIsTrue` | crates/pontifex-bridge/src/serve.rs:108-113 | the readiness flag implies a key, and the candidate error is unreachable |
| `Bridge.ClaimIsSound` | crates/pontifex-bridge/src/handler.rs:115-159 | a granted claim is sound, not below the mark, and raises the mark to its total |
| `Bridge.NextKeepsMoney` | crates/pontifex-bridge/src/handler.rs:115-159 | every step keeps soundness of all grants and the ratchet |
| `Bridge.EveryGrantIsSound` | crates/pontifex-bridge/src/handler.rs:115-159 | over every interleaving each grant binds the baked entry and chain id, an allowed recipient and a positive total read from the ledger, signed by the installed key; totals per recipient never decrease |
| `Bridge.GrantBlockIsDeep` | crates/pontifex-bridge/src/config.rs:10-11 | each grant's block is at most the reported finalized height and at least 800 below the reported head |
| `Bridge.GrantDeadlineIsSoft` | crates/keyex/src/claim.rs:99-106 | each grant's deadline lies in the window on both clocks exactly when the sum does not wrap |
| `RateLimiter.IdleIsFull` | enclave/pull_api.py:183-199 | a bucket idle for a window is full, so dropping it changes nothing |
| `RateLimiter.Limiter.Evict` | enclave/pull_api.py:190-199 | the loop drops exactly the `Evicted` prefix |
| `RateLimiter.Limiter.IsAllowed` | enclave/pull_api.py:201-209 | answers by the tokens available, charges the key, keeps order and token bounds, and leaves at most `max_keys` entries |
| `RateLimiter.Limiter.Remaining` | enclave/pull_api.py:211-214 | the floor of the available tokens, without creating a bucket |
| `RateLimiter.EvictedFacts` | enclave/pull_api.py:190-199 | eviction keeps a suffix, its order, and the key bound |
| `RateLimiter.ActsUnbounded` | enclave/pull_api.py:183-209 | over every call sequence a key never dropped live has exactly the tokens of a limiter that forgets nothing |
| `RateLimiter.CapRespectedMeansUnbounded` | enclave/pull_api.py:183-209 | while no more than `max_keys` keys are called within a window, no key is ever dropped live |
| `RateLimiter.GrantsAreBounded` | enclave/pull_api.py:183-209 | in any span of calls a key never dropped live gets at most limit plus span times limit/window requests through |
| `TxQueues.TxQueue.Push` | relayer/src/tx-queue.ts:36-39 | appends, and starts the drain loop exactly when none runs |
| `TxQueues.TxQueue.Send` | relayer/src/tx-queue.ts:62-139 | one attempt: nonce tracking, completion, or delay with one retry more |
| `TxQueues.TxQueue.Drain` | relayer/src/tx-queue.ts:45-54 | whatever the node answers, the loop ends with everything pushed completed |
| `TxQueues.AttemptFacts` | relayer/src/tx-queue.ts:62-139 | an attempt completes the intent in hand or, while retries are left, delays it |
| `TxQueues.CompletesInPushOrder` | relayer/src/tx-queue.ts:36-139 | over every run the n-th completion is the n-th push, nothing is lost, and anything outstanding has a running loop |
| `TxQueues.SentAtMostThrice` | relayer/src/tx-queue.ts:123-137 | over every run no intent is sent more than three times and none completes unsent |
| `TxQueues.NoncesAreConsecutive` | relayer/src/tx-queue.ts:62-77 | over every run nonces accepted between two chain reads are consecutive |
| `TxQueues.ResumeDecreases` | relayer/src/tx-queue.ts:45-54 | every turn of the loop lowers a measure, whatever the node answers |
| `Relay.LabelCarriesSymbol` | relayer/src/relay.ts:145-151 | the symbol is recovered from the label exactly when it is non-empty and free of white space |
| `Relay.RelayLoop.UpsertPrice` | relayer/src/relay.ts:67-87 | newer prices replace older ones; only an idle asset becomes fresh |
| `Relay.RelayLoop.TryRelay` | relayer/src/relay.ts:89-105 | the stretch before the first suspension: in flight, rate gap, quorum of sources |
| `Relay.RelayLoop.FinishChecks` | relayer/src/relay.ts:107-134 | the stretch after the chain read and the signature check |
| `Relay.RelayLoop.Submit` | relayer/src/relay.ts:145-153 | queues the labelled transaction, or leaves the asset submitting when the lookup throws |
| `Relay.RelayLoop.OnTxComplete` | relayer/src/relay.ts:244-260 | the callback idles exactly the asset the label names |
| `Relay.RelayLoop.DrainTurn` | relayer/src/tx-queue.ts:45-54 | a turn of the queue with its callback |
| `Relay.NextKeeps` | relayer/src/relay.ts:67-158 | every step keeps: outstanding intents belong to distinct submitting assets |
| `Relay.OneOutstandingPerAsset` | relayer/src/relay.ts:89-158 | over every run with clean symbols each asset has at most one outstanding intent, held only while submitting |
| `Relay.OwnershipExactly` | relayer/src/relay.ts:145-151 | all runs over a set of symbols keep every outstanding intent its own asset's exactly when each symbol is non-empty and free of white space |
| `Relay.SubmittingIsOutstanding` | relayer/src/relay.ts:133-151 | and if no address lookup threw, a submitting asset always has an intent outstanding or about to be queued |
| `Relay.ThrowStrands` | relayer/src/relay.ts:134-151 | a lookup that throws leaves its asset submitting with nothing outstanding and no visit |
| `Relay.StrandedForGood` | relayer/src/relay.ts:89-153 | which no further run ends |
| `Relay.WaitedExactly` | relayer/src/relay.ts:89-153 | over every run with clean symbols no asset waits for nothing exactly when no lookup threw |
| `Relay.QueuedIsFresh` | relayer/src/relay.ts:89-153 | over every run a transaction is queued only for a price with three sources, newer than the chain's, eight seconds after the asset's last relay |
| `Relay.PricesOnlyGetNewer` | relayer/src/relay.ts:67-87 | over every run the price kept for an asset only ever gets newer |
| `Relay.UncleanSymbolIsStuck` | relayer/src/relay.ts:244-253 | an asset with an empty or spaced symbol that is submitting never leaves that state |
| `Relay.UncleanIsStranded` | relayer/src/relay.ts:244-253 | and a run from the start brings every such asset with a relayable price there, with nothing outstanding |
| `Relay.MisnamedReleasesAnother` | relayer/src/relay.ts:244-253 | when its label names another asset, a run from the start leaves that one with two intents outstanding |
| `Relay.SpacedSymbolIsMisnamed` | relayer/src/relay.ts:145-151 | as every symbol that continues a clean one after a space does |
| `Abi.DecodeAddressArray` | crates/keyex/src/chain.rs:233-255 | the loop equals `DecodedAddresses` and never indexes out of bounds |
| `Abi.DecodesExactlyEncodings` | crates/keyex/src/chain.rs:233-255 | a buffer decodes to a list exactly when it has at most 64 owners and the buffer starts with its canonical encoding |
| `Numerals.QuantityIsStrict` | crates/keyex/src/chain.rs:352-361 | a string parses to n exactly when it is `0x` and, up to digit case, the shortest hex numeral of a `u64` n |
| `Numerals.QuantityRoundTrip` | crates/keyex/src/chain.rs:352-361 | parsing inverts printing |
| `Numerals.DecimalRoundTrip` | crates/keyex/src/api.rs:154-172 | the decimal print of a 256-bit total parses back to it |
| `Der.ReadLength` | crates/nitro-common/src/verify.rs:356-373 | the length and the cursor after it, or the error, as `LengthAt` |
| `Der.ReadInteger` | crates/nitro-common/src/verify.rs:375-393 | the stripped integer and the cursor after it, or the error |
| `Der.LeftPadInto` | crates/nitro-common/src/verify.rs:395-403 | the field is the right-aligned value, the rest of the buffer is untouched |
| `Der.EcdsaDerToFixed` | crates/nitro-common/src/verify.rs:337-354 | the reader equals `Fixed`, in bounds on every input |
| `Der.FixedKeepsValues` | crates/nitro-common/src/verify.rs:337-403 | whenever it succeeds each output field has the value of the integer it read |
| `Der.AcceptsExactly` | crates/nitro-common/src/verify.rs:337-403 | exactly the buffers with a sequence of two integers inside its length, each fitting 48 bytes after one leading zero, are accepted |
| `Der.FieldsAreSignedExactly` | crates/nitro-common/src/verify.rs:375-403 | a field equals the two's-complement value of its integer exactly when that is empty or its top bit is clear |
| `Der.MinimalEncodingIsRead` | crates/nitro-common/src/verify.rs:337-403 | every minimal encoding of two values below 2^384 (section 2.2.3 of RFC 3279) is read to those values, whatever follows |

## Left out

- Rounding and non-associativity of 64-bit floats: all float arithmetic is exact.
- `NaN` and infinite levels inside order books: book levels are finite reals.
- Sockets, VSOCK, TLS, HTTP and proxies: only the order of messages they give the protocols is kept.
- Keccak, ECDSA, HKDF, EIP-712 hashing, COSE and X.509: arbitrary functions.
- The failover over several JSON-RPC endpoints: a transport answers arbitrarily call by call, which covers it.
- Addresses, image measurements and signatures as byte strings in the protocol modules: opaque identifiers.
- `src/sealing.rs`, `src/aws_creds.rs` and the credentials proxy: calls into services.
- `src/sources`, the collectors, `src/cob_state/mod.rs`, `src/price_server.rs` and configuration parsing: clients and parsers of outside formats.
- OrderBook.FairValueOrderIndependent: stated for steady ticks, which by `GridOrder.GridIsOrderFree` are all those whose grid is the same in every order.
- Splitting a collector's symbol into base and quote, and the tick table: a job's books are those of its base asset, each with any tick.
- `sources_hash` and the signed payload of a price: hashing.
- Endpoint normalisation in `src/keyex_oracle/state.rs`: an arbitrary function.
- Attestation replies, health and readiness bodies, and request parsing: formatting.
- The request timeout of the bridge server: a dropped request has no effect, so it is the absence of a step.
- Zeroing of key copies other than the one the server exchange owns.
- Ratls.Stream.WriteFrame: a write that reports failure counts as a whole frame, and what arrives is a prefix of all frames; part of a frame followed by a later one, such as the decline after a failed write in the opening, is not covered.
- The dual of `OneVenue.BestBidDecidesGated` for the best ask: the same by symmetry.
- Decimal prefixes and underscores that the 256-bit parser also takes: only printed totals are parsed.
- A callback that throws inside the transaction queue: callbacks are assumed to return.
- Retry delays, poll intervals and wall-clock time between steps: any time may pass.
- On-chain contracts: only a grow-only registry and arbitrary read results.
- Bridge.GrantDeadlineIsSoft: stated for wall clocks below 2^64, which the source's type gives.
