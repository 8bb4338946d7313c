# Verified models of the Metaplex sale programs

This project models, in Dafny, the state changes of several Solana programs
and proves what their users rely on.

- **Fair launch** (`FairLaunch`, `LaunchProgram`, `LaunchInvariant`,
  `LaunchSteps`, `LaunchTheorems`, `EligibleHolders`, `AntiRug`, `PhaseThree`,
  `PhaseThreeRuns`, `PhaseThreeTheorems`, `PhaseThreeRewrites`, `RefundRuns`,
  `LaunchCounterexamples`, `LaunchScenarios`, `LockedScenario`,
  `PremintScenario`, over `Histogram`, `LotteryBitmap`, `Bits`,
  `MapSums`, `Division`; `LaunchConditions` says of each instruction when it
  succeeds and what it pays). Buyers place bids while a histogram keeps a running
  median; tickets are then adjusted against the frozen median; a lottery bitmap
  names the winners; winners punch their tickets for tokens; the authority
  withdraws, or holders take refunds from an anti-rug reserve. `FairLaunch`
  states each instruction as a step on the accounts, `LaunchProgram` has the
  handlers, which update the accounts in place and are proved to take exactly
  these steps, and the other modules prove theorems over every run. The modules
  on phase three say from which of its states a launch can be brought to an end,
  and from which it can mint too many tokens; `RefundRuns` says when every token
  is still good for a refund.
- **English auction** (`BidBook`, `BidRanking`, `BidEviction`, `BidRuns`,
  `BidScenarios`, `AuctionReaders`).
  The bounded, sorted bid list with its tie, gap, eviction and cancellation
  rules is related to the plain ranking of all live bids, and the byte-offset
  readers to the decoded account, whose encoding follows the Borsh
  specification (`Borsh`).
- **Auction manager, version 1** (`AuctionManager`): the in-place claim patch
  and the edition ranges.
- **Candy machine** (`ConfigLines`, `ConfigOverrun`, `CandyMachine`): the config
  account's bytes are related to a catalogue of lines, and minting to that
  catalogue.
- **Fireball** (`Fireball`, `Merkle`): the dish state machine and the Merkle
  verifier; the gumdrop has the same verifier
  (`rust/gumdrop/src/merkle_proof.rs`), so one model serves both.
- **Auction house** (`AuctionHouse`): the payments of a sale.

An instruction that fails yields an error and leaves the accounts as they were,
as the runtime rolls a failed transaction back. Index and slice bounds that the
programs leave to a panic are the error `Aborted`. Arithmetic that the programs
check yields their overflow error; arithmetic that they do not check, and casts,
wrap around explicitly.

`dafny verify dfyconfig.toml` checks everything.

## What the fair launch theorems assume

The program leaves some things to the authority. `LaunchSteps.WellBehaved`
lists them, and the theorems about runs assume them of every event:

- the clock does not go back;
- `update_fair_launch` runs only before the first ticket is sold, with a
  positive `price_range_start` and no fewer tokens than exist already (the first
  data too have a positive `price_range_start`);
- once phase three has started, the bitmap is not rewritten in a way that does
  harm: every punched ticket keeps its bit and, while a ticket is open, no more
  winners are named than there are tokens for (`LaunchSteps.HarmlessRewrite`,
  which `LaunchSteps.RewriteKeepsInvIff` shows to be exactly what the invariant
  needs);
- nobody else pays into the treasury or mints the token. Token holders may burn
  tokens at any time: that is the event `Burn`.

Two of these the program could have checked, and it is shown what goes wrong
without them: in the second phase one opens the program accepts both a purchase
and an update, which strands the bids already in
(`LaunchCounterexamples.UpdateAtOpening`, `LaunchScenarios.UpdateStrandsAlice`),
and nothing prevents a rewrite of the bitmap in phase three, after which a
launch can mint more tokens than it has
(`PhaseThreeTheorems.RewriteOversellsIff`, `LaunchScenarios.RewriteOversells`).
The other hypotheses are assumed without such a counterexample. The anti-rug
theorems assume moreover that the authority withdraws only while the supply
exceeds the token requirement (`AntiRug.PromiseOpen`).

## Where the code falls short

- `current_eligible_holders` is meant to count the tickets that reach the
  median. With two middle bids in different bins it counts from the upper one,
  so a ticket between the two can be missed.
  `EligibleHolders.PhaseOneExactIff` gives the exact condition,
  `LaunchCounterexamples.OnTicksExactIff` the exact condition for bids on ticks.
- The miscount can lock a launch in phase three: a loser at the median or above
  leaves only while the stored number is positive, so the tickets can all be
  resolved if and only if it is at least the number of open tickets at or above
  the median without a bit (`PhaseThreeTheorems.PhaseThreeEndsIff`).
  `LockedScenario.LaunchLocks` is a run that locks;
  `PhaseThreeTheorems.PhaseThreeEndsOnTicks` says when none does.
- The bitmap may still be rewritten in phase three, any number of times. More
  than `number_of_tokens` can at some point be minted if and only if, after one
  of the rewrites, the open tickets at or above the median with a set bit
  outnumber the tokens left (`PhaseThreeRewrites.SupplyBoundIff`; for one rewrite
  `PhaseThreeTheorems.RewriteOversellsIff`).
- A refund goes to any token, one that was minted before the sale and paid
  nothing included. While the authority keeps to its allotment, every holder who
  asks in time is paid, whatever the others do, if and only if a slice for every
  token there is, and the allotment if it is still open, are in the treasury
  (`RefundRuns.RefundsCoveredIff`). Without preminted tokens that holds
  (`RefundRuns.PunchedTokensCovered`); `PremintScenario.PremintTakesRefund` is a
  run with one in which the only punched ticket gets no refund.
- An evicted bid does not come back when stored ones are cancelled. The winners
  an auction reports are the best live bids if and only if each live bid that is
  not stored has at least `max` stored bids ranking before it
  (`BidRuns.WinnersAreRankedIff`). That holds while no more than
  `max_array_size_for(max) - max` stored bids have been cancelled
  (`BidRuns.RoomToSpareCovers`); `BidScenarios.RunLosesWinner` is a run, for each
  number of prizes below 128, whose last prize goes to nobody.
- `add_config_lines` checks its first index only, so a batch can run over the
  lines into the mask. A line of it then reads back as written if and only if the
  marks that the batch sets inside it were set in its bytes anyway
  (`ConfigOverrun.BatchReadsBackIff`), and the marks of other lines under it are
  lost to its bytes (`ConfigOverrun.MarkFollowsLine`); with ASCII names that
  garbles the line, or forgets lines written before
  (`ConfigOverrun.OverrunGarbles`, `ConfigOverrun.SecondLineGarbled`). The stored
  length of the mask, which no instruction reads, is overwritten too
  (`ConfigLines.MaskLengthKeptIff`). And the account need not have a mask byte for
  the last `max % 8` lines (`ConfigLines.AddSucceedsIff`,
  `ConfigLines.NinthLineAborts`).
- `fast_save` takes the straight shot whenever no config has several items; with
  an empty config it sets another byte than the claimed flag
  (`AuctionManager.StraightShotIff`, `AuctionManager.EmptyConfigMissesClaim`).
- `get_config_line` lets the index equal the count. No mint reaches that index
  (`CandyMachine.RunKeepsStocked`).
- `printing_v2_calculation_checks` gives a winner further than one place beyond
  the number of winners a range that need not be its own
  (`AuctionManager.AcceptedRangeIff`).

## Model

| member | source | states |
|---|---|---|
| `Histogram.CountTotal` | rust/fair-launch/src/utils.rs:123-150 | the first loop returns the number of bids and the first occupied tick, or overflow exactly when a running total, a product of tick and bin or the first occupied tick does not fit |
| `Histogram.FindMiddle` | rust/fair-launch/src/utils.rs:150-187 | the second loop stops at the true median: the middle bid of the sorted expansion of the counts, or for an even number the lower middle one plus half the difference rounded down |
| `Histogram.Measure` | rust/fair-launch/src/utils.rs:123-199 | the whole second half of adjust_counts, one-bid special case included, agrees with the median and eligible count defined on the sorted list of bids |
| `Histogram.ExpandAt` | rust/fair-launch/src/utils.rs:150-187 | the k-th smallest bid lies in the bin where the running count first passes k |
| `Histogram.ExpandSorted` | rust/fair-launch/src/utils.rs:150-187 | the expansion of the counts is the bids in ascending order, so its middle is a median |
| `Histogram.MedianBetween` | rust/fair-launch/src/utils.rs:153-187 | the median lies between the ticks of the two middle bids |
| `Histogram.MedianIsHalfWay` | rust/fair-launch/src/utils.rs:153-187 | twice the median offset is the sum of the two middle bids' ticks in the sorted expansion, or one less; they are the same bid for an odd number |
| `Histogram.EligibleAtLeastHalf` | rust/fair-launch/src/utils.rs:188-199 | at least half of the bids, rounded up, are counted as eligible |
| `LotteryBitmap.LotteryAccount.OnesGained` | rust/fair-launch/src/lib.rs:223-246 | the inner bit loop yields the difference of the two bytes' population counts |
| `LotteryBitmap.LotteryAccount.Write` | rust/fair-launch/src/lib.rs:203-265 | a strip is written in place and the cached count follows; on an error bytes and count are as before |
| `LotteryBitmap.LotteryAccount.constructor` | rust/fair-launch/src/lib.rs:270-286 | a new bitmap is zeroed, with a bit for every ticket sold |
| `LotteryBitmap.WriteStripAccurate` | rust/fair-launch/src/lib.rs:203-265 | bitmap_ones stays the number of set bits, and an in-range write to an accurate bitmap cannot fail |
| `LotteryBitmap.IsWinnerIsBit` | rust/fair-launch/src/utils.rs:202-212 | the mask and index of a ticket name its own bit, and fail to do so only past the end |
| `LotteryBitmap.PackStrip` | js/packages/cli/src/fair-launch-cli.ts:2686-2719 | the packer's bytes have bit i set exactly when the i-th ticket of the chunk was chosen, the last byte padded with zeros |
| `LotteryBitmap.LotteryMatchesDraw` | js/packages/cli/src/fair-launch-cli.ts:2683-2744 | once every chunk has arrived, in any order and even repeatedly, ticket s wins exactly when it was chosen and bitmap_ones is the number chosen |
| `LaunchProgram.EmptyTicks` | rust/fair-launch/src/lib.rs:136-146 | the loop builds one zero per tick of the range, or overflows exactly when the tick past the end does not fit |
| `LaunchProgram.RecountBids` | rust/fair-launch/src/utils.rs:84-199 | adjust_counts: the old bid leaves its bin, the new one enters its own, and both loops recount |
| `LaunchProgram.LaunchAccounts.Initialize` | rust/fair-launch/src/lib.rs:43-149 | either a fresh launch in the specified first state or the specified error |
| `LaunchProgram.LaunchAccounts.UpdateFairLaunch` | rust/fair-launch/src/lib.rs:151-178 | new valid data and empty bins up to the start of phase one, and no change otherwise |
| `LaunchProgram.LaunchAccounts.PurchaseTicket` | rust/fair-launch/src/lib.rs:288-405 | refines its step: ticket, counters, histogram, median and treasury move together or not at all |
| `LaunchProgram.LaunchAccounts.CreateTicketSeq` | rust/fair-launch/src/lib.rs:407-440 | an unsequenced ticket, and no other, becomes punchable, and the crank counter goes down with it |
| `LaunchProgram.LaunchAccounts.AdjustTicket` | rust/fair-launch/src/lib.rs:442-666 | an open ticket takes its new amount and the treasury its difference; bins and median move in phase one only, eligible holders by one afterwards; phase three admits only the way to the median for winners and the way out for the others |
| `LaunchProgram.LaunchAccounts.PunchTicket` | rust/fair-launch/src/lib.rs:668-751 | refines its step: one token for a winner at the median, nothing otherwise |
| `LaunchProgram.LaunchAccounts.CreateLotteryBitmap` | rust/fair-launch/src/lib.rs:270-286 | one bitmap, once, after phase two, with room for every ticket sold |
| `LaunchProgram.LaunchAccounts.UpdateLotteryBitmap` | rust/fair-launch/src/lib.rs:203-268 | the strip and the count reach the bitmap once every ticket is sequenced |
| `LaunchProgram.LaunchAccounts.StartPhaseThree` | rust/fair-launch/src/lib.rs:180-201 | phase three starts only if as many winners are named as there are tokens left or eligible holders, whichever is less |
| `LaunchProgram.LaunchAccounts.RestartPhaseTwo` | rust/fair-launch/src/lib.rs:1001-1028 | the end of phase two moves, wrapping around, only before phase three and after the lottery time |
| `LaunchProgram.LaunchAccounts.WithdrawFunds` | rust/fair-launch/src/lib.rs:753-876 | the snapshot is taken on the first cash-out and kept; the authority gets one allotment while its promise is open, and the whole balance once it is met or if none was made |
| `LaunchProgram.LaunchAccounts.ReceiveRefund` | rust/fair-launch/src/lib.rs:878-999 | one token is burned for one equal slice of the reserve, after the self-destruct date |
| `LaunchProgram.LaunchAccounts.MintTokens` | rust/fair-launch/src/lib.rs:1523-1590 | tokens are minted once all tickets are resolved, never past the number on sale |
| `LaunchProgram.LaunchAccounts.Execute` | rust/fair-launch/src/lib.rs:43-1028 | any instruction at any time takes the accounts to the state of the run's next step, so every theorem about runs holds of the handlers |
| `Borsh.LittleEndianAt` | rust/auction/program/src/processor.rs:185-219 | integers are stored with their lowest byte first |
| `FairLaunch.CapitalAllotment` | rust/fair-launch/src/utils.rs:335-353 | the authority's allotment is the part of the snapshot that is not reserved: ten thousand times it is at most snapshot * (10000 - reserve_bp), and of one more it is not |
| `LaunchConditions.InitializeSucceedsIff` | rust/fair-launch/src/lib.rs:43-149 | a launch opens if and only if its data meet the listed conditions, with one empty count for each tick of the range |
| `LaunchConditions.UpdateSucceedsIff` | rust/fair-launch/src/lib.rs:151-178 | new data are taken, with empty counts, if and only if phase one has at most just begun and a launch could open with them |
| `LaunchConditions.PurchaseMoves` | rust/fair-launch/src/lib.rs:288-405 | a purchase adds the ticket at its price and moves exactly the price and the fee |
| `LaunchConditions.SequenceSucceedsIff` | rust/fair-launch/src/lib.rs:407-440 | after any run the crank succeeds if and only if the ticket is unsequenced, and makes it punchable |
| `LaunchConditions.EarlyAdjustmentSucceedsIff` | rust/fair-launch/src/lib.rs:442-534 | after any run, before phase three, an adjustment succeeds if and only if the ticket is unpunched, its buyer signed, now <= phase_two_end, the amount is zero or in range and on a tick or the median, a rise is funded, and the 64-bit treasury and eligible holders have room |
| `LaunchConditions.LateAdjustmentSucceedsIff` | rust/fair-launch/src/lib.rs:480-534 | after any run, in phase three, it succeeds, signed or not, if and only if the ticket is unpunched and goes to the median as a winner at or above it, or to zero as anybody else, the latter at the median or above only while an eligible holder is left |
| `LaunchConditions.AdjustmentMoves` | rust/fair-launch/src/lib.rs:504-640 | it moves exactly the difference of the amounts; after phase one it changes of the histogram nothing but the eligible holders, by one if the ticket crosses the median |
| `LaunchConditions.PunchSucceedsIff` | rust/fair-launch/src/lib.rs:668-751 | after any run a punch succeeds if and only if phase three has started and the ticket is unpunched, at the median and its bit is set; there is always a token left for it |
| `LaunchConditions.CreateBitmapSucceedsIff` | rust/fair-launch/src/lib.rs:270-286 | a bitmap is created if and only if there is none and phase two has ended, with a bit for each ticket sold, at most eight to spare, all clear |
| `LaunchConditions.UpdateBitmapSucceedsIff` | rust/fair-launch/src/lib.rs:203-268 | after any run (of fewer than 2^64 - 9 tickets) a strip is written if and only if every ticket is sequenced and it fits; its bits then hold where it lies and the former ones elsewhere, and bitmap_ones counts them |
| `LaunchConditions.StartPhaseThreeSucceedsIff` | rust/fair-launch/src/lib.rs:180-201 | after any run phase three starts if and only if a bitmap exists and the number of its set bits is the lesser of the tokens left and the stored eligible holders |
| `LaunchConditions.StartPhaseThreeOnTicks` | rust/fair-launch/src/lib.rs:185-196 | on tick marks of two units or more the latter is the number of tickets at or above the median |
| `LaunchConditions.RestartSucceedsIff` | rust/fair-launch/src/lib.rs:1001-1028 | phase two restarts if and only if phase three has not started and the lottery time after its end is up; its new end is now plus that time, less 2^64 if that does not fit |
| `LaunchConditions.EarlyRefusal` | rust/fair-launch/src/lib.rs:498-512 | before phase three an open ticket's adjustment is refused for the signature, the end of phase two or the amount, checked in this order, exactly when each is at fault |
| `LaunchConditions.LateRefusal` | rust/fair-launch/src/lib.rs:480-497 | in phase three a bid below the median may be nothing but dropped, a winner's go nowhere but to the median, a loser's only be dropped, each with its own error |
| `LaunchConditions.StartRefusal` | rust/fair-launch/src/lib.rs:180-196 | phase three is refused for a missing bitmap, and otherwise for the number of its ones |
| `LaunchConditions.WithdrawalRefusal` | rust/fair-launch/src/lib.rs:761-777 | a withdrawal is refused for an open ticket, before phase three, or because the allotment has been taken, in this order |
| `LaunchConditions.RefundRefusal` | rust/fair-launch/src/lib.rs:895-925 | a refund is refused for an open ticket, before phase three, or without a token to burn, in this order |
| `LaunchConditions.MintSucceedsIff` | rust/fair-launch/src/lib.rs:1523-1590 | after any run tokens are minted if and only if every ticket is dropped or punched and they stay within number_of_tokens |
| `LaunchConditions.WithdrawalInFigures` | rust/fair-launch/src/lib.rs:753-876 | after any run a withdrawal succeeds if and only if every ticket is settled in phase three and the promise is met or absent, which pays the whole balance, or nothing has left the treasury, which pays a with 10000 * a <= snapshot * (10000 - reserve_bp) < 10000 * (a + 1) |
| `LaunchConditions.RefundInFigures` | rust/fair-launch/src/lib.rs:878-999 | after any run a refund succeeds if and only if every ticket is settled in phase three, the date has come, a ticket was punched, a token is left, the counter has room and the treasury holds p, which it pays, with punched * p <= snapshot - a < punched * (p + 1) |
| `LaunchInvariant.TicketsPartition` | rust/fair-launch/src/lib.rs:2087-2092 | the four ticket states partition the tickets |
| `LaunchInvariant.ResolvedTickets` | rust/fair-launch/src/lib.rs:761-777 | the cash-out gate is open if and only if every ticket is dropped or punched, and the counters say so |
| `LaunchInvariant.PunchedAtMostOnes` | rust/fair-launch/src/lib.rs:690-698 | distinct punched tickets sit on distinct set bits of the bitmap |
| `LaunchInvariant.TotalIsLive` | rust/fair-launch/src/utils.rs:84-122 | the counts add up to the tickets that were not withdrawn |
| `LaunchInvariant.InsertCannotFail` | rust/fair-launch/src/utils.rs:84-199 | with a valid new bid no index is out of bounds and no checked operation of adjust_counts fails |
| `LaunchSteps.PurchaseKeepsInv` | rust/fair-launch/src/lib.rs:288-405 | a purchase keeps counters, histogram, money and supply in order |
| `LaunchSteps.AdjustKeepsInv` | rust/fair-launch/src/lib.rs:442-666 | so does an adjustment, in whichever phase |
| `LaunchSteps.PunchKeepsInv` | rust/fair-launch/src/lib.rs:668-751 | so does a punch, using up one of the winners the supply bound sets aside |
| `LaunchSteps.StepKeepsInv` | rust/fair-launch/src/lib.rs:43-1028 | every instruction keeps the invariant, failed ones included |
| `LaunchSteps.RewriteKeepsInvIff` | rust/fair-launch/src/lib.rs:203-268 | in phase three an accepted rewrite of the bitmap keeps the invariant if and only if every punched ticket keeps its bit and, while tickets are open, supply plus the winners yet to punch stays within number_of_tokens |
| `LaunchSteps.RunKeepsInv` | rust/fair-launch/src/lib.rs:43-1028 | so does every well-behaved run |
| `LaunchTheorems.TreasuryAndCounters` | rust/fair-launch/src/lib.rs:288-751 | after any run: sold = unsequenced + unpunched + dropped + punched, each counter the number of such tickets; before a cash-out the treasury is the ticket amounts plus a fee each; once all are resolved the snapshot is punched * median + fee * sold |
| `LaunchTheorems.PayBackCovered` | rust/fair-launch/src/lib.rs:536-640 | after any run the treasury covers every open ticket, so no lowering of a bid fails for lack of money |
| `LaunchTheorems.SupplyNeverExceedsTokens` | rust/fair-launch/src/lib.rs:185-198 | after any run supply <= number_of_tokens and number_tickets_punched <= bitmap_ones = number of set bits |
| `LaunchTheorems.HistogramMatchesTickets` | rust/fair-launch/src/utils.rs:84-199 | throughout phase one each count is the number of live tickets in its bin, the sum is sold - dropped, and median and eligible holders are those of the bids |
| `LaunchTheorems.PurchaseSucceedsWhen` | rust/fair-launch/src/lib.rs:288-405 | after any run a purchase succeeds if and only if the buyer is new, in time, at a valid price and funded, and the 64-bit counters have room |
| `LaunchTheorems.RecountCannotFail` | rust/fair-launch/src/utils.rs:84-199 | moving a live bid in phase one never fails in adjust_counts |
| `LaunchTheorems.EligibleHoldersCounted` | rust/fair-launch/src/lib.rs:480-534 | with ticks of two or more, a first price on a tick and phase-one bids on ticks, current_eligible_holders is the number of tickets at or above the median in every phase |
| `LaunchTheorems.LateRunKeepsExactness` | rust/fair-launch/src/lib.rs:480-534 | after phase one the +1/-1 updates never change whether, or by how much, the number is off |
| `EligibleHolders.PhaseOneExactIff` | rust/fair-launch/src/utils.rs:153-199 | in phase one the stored number is exact if and only if no live ticket lies between the bottom of the upper middle bid's bin and the median |
| `EligibleHolders.PhaseOneExact` | rust/fair-launch/src/utils.rs:153-199 | bids on ticks of at least two units leave no such ticket |
| `EligibleHolders.LateStepKeepsDrift` | rust/fair-launch/src/lib.rs:480-534 | one instruction after phase one moves the stored and the true number alike |
| `EligibleHolders.ExactNeverOverflows` | rust/fair-launch/src/lib.rs:480-534 | while the number is exact its checked increment and decrement cannot fail |
| `EligibleHolders.RunKeepsExact` | rust/fair-launch/src/lib.rs:288-666 | exactness over whole runs on tick marks |
| `AntiRug.StepKeepsReserve` | rust/fair-launch/src/lib.rs:753-999 | every instruction keeps the books of the reserve: one allotment at most, one equal slice per refund |
| `AntiRug.ReserveSolvent` | rust/fair-launch/src/utils.rs:275-353 | however withdrawals and refunds interleave, the authority takes at most one allotment and each of as many refunds as punched tickets is covered |
| `AntiRug.RefundSucceedsWhen` | rust/fair-launch/src/lib.rs:878-999 | a refund due to a punched ticket succeeds if and only if the self-destruct date has come and a token is left |
| `RefundRuns.RefundsCoveredIff` | rust/fair-launch/src/utils.rs:275-353 | once every ticket is resolved, and while no more tokens are minted and the authority keeps to its allotment, no holder of a token who asks in time is ever refused, however refunds, burns and the withdrawal interleave, if and only if the treasury holds a slice for every token there is plus the allotment if still open, a ticket was punched and the counter of refunds has room |
| `RefundRuns.PunchedTokensCovered` | rust/fair-launch/src/utils.rs:275-315 | it does if the tokens there are and those burned for refunds are together no more than the punched tickets |
| `PremintScenario.PremintTakesRefund` | rust/fair-launch/src/lib.rs:878-999 | a concrete run: one token minted before the sale, one ticket punched, and after one refund the other token's is refused at any time |
| `AntiRug.SnapshotStays` | rust/fair-launch/src/lib.rs:826-848 | the snapshot never changes once taken |
| `LaunchCounterexamples.SplitOfOneUnitMiscounts` | rust/fair-launch/src/utils.rs:153-199 | bids of 1 and 2 on ticks of one unit: two tickets reach the median, one is counted |
| `LaunchCounterexamples.OnTicksExactIff` | rust/fair-launch/src/utils.rs:153-199 | with bids on ticks the recount is wrong if and only if the tick is one unit and the middle bids are in adjacent bins |
| `LaunchCounterexamples.UpdateAtOpening` | rust/fair-launch/src/lib.rs:151-178 | in the second phase one opens both guards pass, and an update then keeps counts and tickets in agreement if and only if no live ticket exists |
| `LaunchCounterexamples.UpdateStrandsBid` | rust/fair-launch/src/lib.rs:151-178 | such an update empties the bin of a bid already in, and its buyer can then neither move nor drop it while phase one lasts |
| `LaunchScenarios.UpdateStrandsAlice` | rust/fair-launch/src/lib.rs:151-178 | a concrete run, well behaved up to an update in the second phase one opens, after which the only bid is stranded |
| `LaunchScenarios.RewriteOversells` | rust/fair-launch/src/lib.rs:203-265 | a concrete run, well behaved up to a rewrite in phase three, after which a launch of one token mints two |
| `PhaseThree.LateStep` | rust/fair-launch/src/lib.rs:442-751 | in phase three no instruction but a rewrite changes eligible holders less open losers, adds a claim of an open winner, or lets supply plus such claims grow; tokens minted once no ticket is open stay within number_of_tokens |
| `PhaseThreeRuns.CanLeaveIff` | rust/fair-launch/src/lib.rs:480-534 | in phase three a ticket that lost can leave if and only if its bid is below the median or the stored number of eligible holders is positive |
| `PhaseThreeRuns.CanResolveIff` | rust/fair-launch/src/lib.rs:442-751 | from any phase-three state that keeps the invariant some run of instructions anybody may send resolves every ticket if and only if the eligible holders cover the open tickets at or above the median without a bit |
| `PhaseThreeRuns.LockedStaysLocked` | rust/fair-launch/src/lib.rs:442-751 | where they do not, no continuation resolves every ticket, whoever signs, as long as the bitmap is left alone |
| `PhaseThreeRuns.CanOversellIff` | rust/fair-launch/src/lib.rs:668-751 | from any phase-three state, whatever its bitmap, a continuation without a rewrite can pass number_of_tokens if and only if the open tickets at or above the median with a set bit outnumber the tokens left (and the supply counter has room for one more) |
| `PhaseThreeTheorems.RewriteOversellsIff` | rust/fair-launch/src/lib.rs:203-265 | the same after any rewrite in phase three of any run: the exact condition under which it lets the supply pass number_of_tokens |
| `PhaseThreeRewrites.RunKeepsFit` | rust/fair-launch/src/lib.rs:203-265 | over any continuation of phase three, with any number of rewrites that each leave supply plus the open winners' claims within number_of_tokens, they stay within it |
| `PhaseThreeRewrites.RewritesOversellIff` | rust/fair-launch/src/lib.rs:203-265 | from such a state a continuation with any rewrites reaches a point from which number_of_tokens can be passed if and only if one of its rewrites leaves more claims than tokens left (and the supply counter has room for one more) |
| `PhaseThreeRewrites.SupplyBoundIff` | rust/fair-launch/src/lib.rs:185-265 | the same for every launch that has reached phase three by a well-behaved run: the exact condition on the rewrites under which supply <= number_of_tokens |
| `PhaseThreeTheorems.PhaseThreeEndsIff` | rust/fair-launch/src/lib.rs:442-751 | after any run phase three can be brought to its end if and only if the stored eligible holders cover the losers at or above the median |
| `PhaseThreeTheorems.PhaseThreeEndsOnTicks` | rust/fair-launch/src/lib.rs:442-751 | with ticks of two or more and phase-one bids on ticks it always can |
| `LockedScenario.LaunchLocks` | rust/fair-launch/src/lib.rs:480-534 | a concrete run on ticks of one unit, bids of 1 and 2, both losers, after which no continuation without a rewrite resolves both tickets |
| `BidBook.PlaceUnique` | rust/auction/program/src/processor.rs:545-631 | in a sorted list a bid has one place: above every lower bid and below every higher or equal one |
| `BidBook.AcceptedIff` | rust/auction/program/src/processor.rs:386-429 | a bid is accepted if and only if it is on a tick, at the minimum or above and, once now is past ended_at with a gap of g percent (at most 100), ties with no stored bid unless g is 0 and every lower stored x has x * (100 + g) < 100 * (amount + 1) |
| `BidBook.AcceptedList` | rust/auction/program/src/processor.rs:545-631 | the list then has it above all lower bids and below the others; the lowest falls off if the list had 8 bids, or from eight prizes on twice as many as prizes |
| `BidBook.Auction.InsertBid` | rust/auction/program/src/processor.rs:545-631 | inserts at that place, or rejects with the list untouched; the top-down walk rejects exactly when the gap rule at that place does |
| `BidBook.Auction.CancelBid` | rust/auction/program/src/processor.rs:633-644 | retains all other bids, in order |
| `BidBook.Auction.ConsiderInstantBid` | rust/auction/program/src/processor.rs:373-384 | ends the auction exactly when it is sold out; aborts without any prize |
| `BidBook.Auction.PlaceBid` | rust/auction/program/src/processor.rs:386-429 | succeeds if and only if the bid is on a tick, at the minimum or above, keeps the spelled-out gap once the end time has passed, and there is a prize if there is an instant price; on an error neither list nor state changes |
| `BidRanking.PlaceKeepsBook` | rust/auction/program/src/processor.rs:545-631 | sorted with earlier equal bids ranked higher, distinct keys, every bid at the floor or above, at most max_array_size_for(max) of them |
| `BidRanking.CancelKeepsBook` | rust/auction/program/src/processor.rs:633-644 | the same after a cancellation, and the key is gone |
| `BidRanking.CancelUndoesPlace` | rust/auction/program/src/processor.rs:545-644 | a cancellation undoes a placement that evicted nobody |
| `BidRanking.WinnersInvert` | rust/auction/program/src/processor.rs:660-711 | is_winner and winner_at are inverse |
| `BidRanking.InstantSaleExactly` | rust/auction/program/src/processor.rs:713-723 | the instant-sale test holds, and the auction is sold out, if and only if all max places are taken by bids at the price or above |
| `BidRanking.InsertTop` | rust/auction/program/src/processor.rs:545-631 | the top n after an insertion depend only on the top n before it |
| `BidRanking.RankedAt` | rust/auction/program/src/processor.rs:545-631 | each bid of a log stands in the ranking exactly below the bids that are higher, or as high and earlier |
| `BidRanking.RankedWithout` | rust/auction/program/src/processor.rs:633-644 | ranking commutes with cancelling |
| `BidRuns.RunAgrees` | rust/auction/program/src/processor.rs:494-644 | after any run the stored list agrees with the ranking of all live bids, evicted ones included, down to max_array_size_for(max) minus the cancelled stored bids |
| `BidRuns.CapacityInNumbers` | rust/auction/program/src/processor.rs:494-502 | after any run the list has at most 8 bids, or 2 * max from eight prizes on, and until a stored bid is cancelled exactly as many, or all live bids if they are fewer |
| `BidRuns.StoredIsRanking` | rust/auction/program/src/processor.rs:494-644 | after any run the stored list is exactly the ranking of all live bids with the evicted ones left out |
| `BidEviction.SameIffCovered` | rust/auction/program/src/processor.rs:684-711 | leaving some bids out of a ranking keeps its winners if and only if each bid left out has max others before it |
| `BidEviction.CoveredIff` | rust/auction/program/src/processor.rs:545-631 | which of the ranking's places are covered can be read off the amounts and the order of placement |
| `BidRuns.WinnersAreRankedIff` | rust/auction/program/src/processor.rs:494-711 | after any run the reported winners are the top max of all live bids, evicted ones included, if and only if each live bid that is not stored has at least max stored bids that are higher, or as high and earlier |
| `BidRuns.RoomToSpareCovers` | rust/auction/program/src/processor.rs:494-502 | which holds while at most max_array_size_for(max) - max stored bids were cancelled |
| `BidRuns.WinnersAreTheBest` | rust/auction/program/src/processor.rs:684-711 | under the exact condition there are min(max, live) winners and a bid wins place p if and only if p other live bids rank before it and p < max |
| `BidRuns.OneCancellationTooMany` | rust/auction/program/src/processor.rs:494-502 | from any run that filled the list and evicted a bid, cancelling one stored bid more than there is room to spare leaves a place empty that a live bid should have |
| `BidScenarios.RunLosesWinner` | rust/auction/program/src/processor.rs:494-644 | a concrete run for each number of prizes from 1 to 127: one equal bid more than the list holds, then one cancellation more than there is room to spare, and the last prize has no winner though a live bid is left |
| `AuctionReaders.LayoutInFigures` | rust/auction/program/src/processor.rs:72-130 | where the fields of a stored auction lie: two keys, four timestamps of nine bytes or one, a price floor of 33, the state and the kind as tags, the number of bids, 40 bytes a bid, and the limit |
| `AuctionReaders.FindBidStateBeginning` | rust/auction/program/src/processor.rs:190-207 | the loop over four timestamps finds the first bid, or runs off the data |
| `AuctionReaders.StateAgrees` | rust/auction/program/src/processor.rs:173-183 | get_state returns the decoded state on the encoding of any auction |
| `AuctionReaders.NumWinnersAgrees` | rust/auction/program/src/processor.rs:185-219 | get_num_winners agrees with the decoded auction if and only if it is an English one or has no bids or no places |
| `AuctionReaders.WinnerAtAgrees` | rust/auction/program/src/processor.rs:254-283 | get_winner_at returns the decoded winner at an index if and only if the auction is an English one, has no bids or no places, or the index is past the winners the bytes show |
| `AuctionReaders.WinnerAmountAgrees` | rust/auction/program/src/processor.rs:285-314 | get_winner_bid_amount_at returns the decoded amount under the same condition and no other |
| `AuctionReaders.GetIsWinner` | rust/auction/program/src/processor.rs:221-252 | the scan with its early exits finds the first matching place |
| `AuctionReaders.IsWinnerAgrees` | rust/auction/program/src/processor.rs:221-252 | with distinct keys and bids at the minimum or above get_is_winner equals is_winner if and only if the auction is an English one or the key wins nothing by the bytes |
| `AuctionReaders.StoredReadsAsEnglish` | rust/auction/program/src/processor.rs:480-492 | every auction the program stores meets these conditions for every index and key: an open edition has no places and stores no bids |
| `AuctionReaders.FindInstantSaleBeginning` | rust/auction/program/src/processor.rs:140-161 | hops over the counter and two options to the price's tag |
| `AuctionReaders.InstantSalePriceAgrees` | rust/auction/program/src/processor.rs:132-161 | get_instant_sale_price reads the stored price for any mix of present and absent fields |
| `AuctionManager.FindClaim` | rust/metaplex/program/src/deprecated_state.rs:132-171 | the walk finds the claimed flag's byte; the straight shot goes to the byte one item per config would put it at |
| `AuctionManager.FastSave` | rust/metaplex/program/src/deprecated_state.rs:127-172 | two bytes are patched in place, or the program aborts past the end of the account; where the target is the flag, the bytes are the serialization of the manager with its new status and the one item claimed |
| `AuctionManager.PatchIsSave` | rust/metaplex/program/src/deprecated_state.rs:534-632 | two one-byte patches commute with serialization, for any numbers of configs and items |
| `AuctionManager.ItemInFigures` | rust/metaplex/program/src/deprecated_state.rs:534-632 | the two flags of an item lie, sale first, behind 167 bytes, five for each config before and two for each item before, and four for the count of its own config |
| `AuctionManager.StraightShotIff` | rust/metaplex/program/src/deprecated_state.rs:127-172 | the straight-shot offset is the walked one if and only if as many items as configs lie before the flag |
| `AuctionManager.EmptyConfigMissesClaim` | rust/metaplex/program/src/deprecated_state.rs:127-172 | with an empty config before a config of one item the straight shot leaves the flag alone and overwrites the first byte behind the configs |
| `AuctionManager.OneItemEach` | rust/metaplex/program/src/deprecated_state.rs:127-172 | which holds when every config has one item |
| `AuctionManager.PrintingV2CalculationChecks` | rust/metaplex/program/src/deprecated_state.rs:222-292 | accepts exactly the editions of the winner's half-open range; expected redemptions are the amounts of the actual winners whichever way the loop ends |
| `AuctionManager.AmountIsFirst` | rust/metaplex/program/src/deprecated_state.rs:516-532 | a winner's amount of a box is that of its first item of the box, and zero without one |
| `AuctionManager.CommonChecksIff` | rust/metaplex/program/src/deprecated_state.rs:174-220 | the first item of the box counts, and is refused if and only if it is claimed and claims are not ignored |
| `AuctionManager.RangesDisjoint` | rust/metaplex/program/src/deprecated_state.rs:249-292 | no edition belongs to two winners |
| `AuctionManager.RangesCover` | rust/metaplex/program/src/deprecated_state.rs:249-292 | the ranges of the first n winners are together 1 to their total |
| `AuctionManager.AcceptedRangeIff` | rust/metaplex/program/src/deprecated_state.rs:249-292 | the accepted range is the winner's own for every winner up to one past their number, and beyond it if and only if the skipped ones get nothing |
| `Merkle.Verify` | rust/fireball/src/merkle_proof.rs:8-21 | the loop climbs from the leaf and compares with the root |
| `Merkle.Sound` | rust/fireball/src/merkle_proof.rs:8-21 | whatever a proof accepts is the hash of something inside the tree |
| `Merkle.Complete` | rust/fireball/src/merkle_proof.rs:8-21 | everything inside the tree has a proof |
| `Merkle.ProvableIffInside` | rust/fireball/src/merkle_proof.rs:8-21 | some proof accepts h if and only if h is the hash of the tree or a subtree, for trees of any shape |
| `Merkle.ProvableIffLeaf` | rust/fireball/src/lib.rs:159-167 | a flagged leaf has a proof if and only if it is a leaf of the tree |
| `Fireball.DishAccount.constructor` | rust/fireball/src/lib.rs:73-85 | a dish starts empty and incomplete |
| `Fireball.DishAccount.AddIngredient` | rust/fireball/src/lib.rs:87-229 | a token enters the store of its number only with a proof against that number's root, checked by the verifier's loop, and only if the store is closed |
| `Fireball.DishAccount.RemoveIngredient` | rust/fireball/src/lib.rs:231-288 | before completion the cook gets the token of an open store back and the store closes |
| `Fireball.DishAccount.MakeDish` | rust/fireball/src/lib.rs:290-359 | the cook completes the dish only when as many ingredients are in as the recipe has roots; the count is kept for the burning |
| `Fireball.DishAccount.ConsumeIngredient` | rust/fireball/src/lib.rs:361-433 | after completion one stored token is burned and its store closes; the last one reopens the dish |
| `Fireball.StepKeepsInv` | rust/fireball/src/lib.rs:87-433 | every instruction keeps: ingredients_added = number of open stores, each below roots.len() and proved against its own root; deposited = returned + burned + stored; burned + unburned = roots.len() * dishes made |
| `Fireball.RunKeepsInv` | rust/fireball/src/lib.rs:73-433 | the same after every run from a started dish |
| `Fireball.MakeSucceedsIff` | rust/fireball/src/lib.rs:290-309 | make_dish succeeds if and only if the cook asks for an incomplete dish and every ingredient number has an open store |
| `Fireball.AddSucceedsIff` | rust/fireball/src/lib.rs:87-229 | in a reachable kitchen an ingredient is added if and only if the cook of an incomplete dish of the recipe offers, for an empty store, a token and a proof of the ingredient itself, or of an edition, not the zeroth, whose master is the ingredient |
| `Fireball.RemoveSucceedsIff` | rust/fireball/src/lib.rs:231-288 | and taken back if and only if the cook of an incomplete dish asks for a stored token, into an account of its mint |
| `Fireball.StoredWasBrought` | rust/fireball/src/lib.rs:136-167 | after any run whatever is stored was brought by an instruction of the run as the ingredient itself, with the leaf flagged 0, or as an edition of it, with the leaf flagged 2 |
| `Fireball.DishHoldsItsIngredients` | rust/fireball/src/lib.rs:159-167 | after any run a dish that can be made holds, for each ingredient, a token that is a leaf of that ingredient's tree or was printed from one |
| `Fireball.CompletedIsLocked` | rust/fireball/src/lib.rs:27-53 | a completed dish changes by consumption only, and becomes incomplete exactly when its last store is closed |
| `Fireball.ConsumeSucceedsIff` | rust/fireball/src/lib.rs:361-433 | any present ingredient of a completed dish can be consumed by anyone, and nothing else can |
| `Fireball.EmptyRecipeStaysCompleted` | rust/fireball/src/lib.rs:418-430 | with no ingredients the dish can be made once and never again |
| `ConfigLines.LineRoundTrip` | rust/nft-candy-machine/src/lib.rs:604-611 | decoding an encoded line gives it back |
| `ConfigLines.BlankIsNoLine` | rust/nft-candy-machine/src/lib.rs:589-603 | the zeroed space of a line never written is rejected by the decoder |
| `ConfigLines.InitialStore` | rust/nft-candy-machine/src/lib.rs:235-280 | a new account with ceil(max/8) mask bytes holds no lines; four creators leave the count untouched |
| `ConfigLines.AddKeepsStore` | rust/nft-candy-machine/src/lib.rs:282-368 | a batch that fits succeeds; the bytes then hold the former lines with the batch over them, each bit says whether its line was written, and the count is the number of distinct indices |
| `ConfigLines.WithLinesAt` | rust/nft-candy-machine/src/lib.rs:313-320 | after a batch each index holds the batch's line where it reaches and its former line elsewhere |
| `ConfigLines.ArrayFollowsFields` | rust/nft-candy-machine/src/lib.rs:554-562 | the count lies at byte 247, behind the fields of a config with five creators, and the lines of 240 bytes behind it |
| `ConfigLines.WrittenReadsBack` | rust/nft-candy-machine/src/lib.rs:297-316 | every line of a batch within max reads back, once the count admits its index, with the given name and uri, all later bytes of their 32 and 200 being zero |
| `ConfigLines.AddAcceptedIff` | rust/nft-candy-machine/src/lib.rs:293-361 | in any account a batch is accepted if and only if its first index is below max, its strings fit 32 and 200 bytes, and its lines and its marks end within the account |
| `ConfigLines.InitializeSucceedsIff` | rust/nft-candy-machine/src/lib.rs:235-280 | a config account is accepted if and only if it has at most four creators and room for the lines and max / 8 bytes of mask |
| `ConfigLines.AddFaithfulIff` | rust/nft-candy-machine/src/lib.rs:293-295 | an accepted batch leaves bytes that represent the catalogue with the batch over it if and only if its last index is below max; what a batch that runs over shows when read is in ConfigOverrun |
| `ConfigLines.MaskLengthKeptIff` | rust/nft-candy-machine/src/lib.rs:293-325 | an accepted batch keeps the stored length of the mask if and only if it ends within the lines or that length is a name's length, 32; a batch that runs over stores 32 there |
| `ConfigOverrun.BatchReadsBackIff` | rust/nft-candy-machine/src/lib.rs:313-361 | any line of any accepted batch reads back with the given name and uri, zeros behind, if and only if the count admits its index and each mark of the batch that lies over its bytes was set in them anyway; no mark lies over a line below max |
| `ConfigOverrun.MarkFollowsLine` | rust/nft-candy-machine/src/lib.rs:313-361 | whether a line outside the batch is marked afterwards is decided by the bytes of the line laid over its mark, not by whether it was written |
| `ConfigOverrun.OverrunGarbles` | rust/nft-candy-machine/src/lib.rs:293-361 | with an ASCII name in line max, a batch that runs over and holds a line whose number is a multiple of eight below 256 changes line max, and a line of such a number outside the batch is left unmarked |
| `ConfigOverrun.SecondLineGarbled` | rust/nft-candy-machine/src/lib.rs:293-366 | an account for one line that accepts two, counts two, and gives the second back as something else |
| `ConfigLines.OverrunCountsTwo` | rust/nft-candy-machine/src/lib.rs:293-366 | an account for one line that accepts two and counts two |
| `ConfigLines.AddSucceedsIff` | rust/nft-candy-machine/src/lib.rs:464-466 | with any account that passes the constraint a batch within the lines succeeds if and only if the mask reaches its last line |
| `ConfigLines.NinthLineAborts` | rust/nft-candy-machine/src/lib.rs:464-466 | the smallest account for nine lines cannot store the ninth |
| `ConfigLines.GetGivesWritten` | rust/nft-candy-machine/src/lib.rs:585-602 | up to the count an index reads back the last line written there, padded, and fails if there is none |
| `ConfigLines.ConfigAccount.Initialize` | rust/nft-candy-machine/src/lib.rs:235-280 | header and mask length are written in place |
| `ConfigLines.ConfigAccount.PadLine` | rust/nft-candy-machine/src/lib.rs:298-311 | both strings are padded with zeros to their full lengths, or the program aborts |
| `ConfigLines.ConfigAccount.Serialize` | rust/nft-candy-machine/src/lib.rs:297-316 | the loop yields the encoding of all padded lines |
| `ConfigLines.ConfigAccount.Mark` | rust/nft-candy-machine/src/lib.rs:327-361 | the loop sets the bits of the batch and counts the new ones, or stops at the end of the account |
| `ConfigLines.ConfigAccount.Add` | rust/nft-candy-machine/src/lib.rs:282-368 | add_config_lines in place; on an error the bytes are as before |
| `ConfigLines.ConfigAccount.Get` | rust/nft-candy-machine/src/lib.rs:585-602 | reads a line, with the source's bound |
| `CandyMachine.MachineAccount.Initialize` | rust/nft-candy-machine/src/lib.rs:370-412 | opens the machine when enough lines are counted and line 0 decodes |
| `CandyMachine.MachineAccount.MintNft` | rust/nft-candy-machine/src/lib.rs:52-106 | takes the next line and counts it, or changes nothing |
| `CandyMachine.RunKeepsStocked` | rust/nft-candy-machine/src/lib.rs:52-412 | after any run of batches that end within max, items_redeemed <= items_available <= lines written <= max, and one line was minted per item redeemed |
| `CandyMachine.RunRefines` | rust/nft-candy-machine/src/lib.rs:282-412 | after any run of batches that fit, the bytes hold exactly the catalogue of lines and the machine is the same |
| `CandyMachine.MintSucceedsIff` | rust/nft-candy-machine/src/lib.rs:52-106 | a mint succeeds if and only if the machine is open and not empty and its next line was written |
| `CandyMachine.InitializeSucceedsIff` | rust/nft-candy-machine/src/lib.rs:370-412 | a machine opens if and only if there is none yet and as many lines are written as it is to sell, the first among them |
| `CandyMachine.MintedIsGiven` | rust/nft-candy-machine/src/lib.rs:52-106 | after any run of batches within max, the k-th minted line has the name and the uri, zeros behind, that the last batch to set that line before its mint gave |
| `CandyMachine.FullMachineMints` | rust/nft-candy-machine/src/lib.rs:52-106 | when count = max every mint takes the next line until the machine is empty |
| `CandyMachine.EachMintTakesItsLine` | rust/nft-candy-machine/src/lib.rs:98-106 | the mint that took line k of any such run came when k lines had been taken, and it took that line as the catalogue held it at that step, so none is taken twice |
| `AuctionHouse.Payments.PayEachCreator` | rust/auction-house/src/utils.rs:316-389 | the loop over the creators pays each its share or fails like the specification |
| `AuctionHouse.Payments.PayRoyalties` | rust/auction-house/src/utils.rs:292-397 | truncated royalty, creators paid in turn, and the price less what they got is returned |
| `AuctionHouse.Payments.ExecuteSale` | rust/auction-house/src/lib.rs:696-786 | creators, house and seller are paid from the escrow in that order; on an error no balance changes |
| `AuctionHouse.Payments.ReclaimAll` | rust/auction-house/src/lib.rs:833-858 | the trade states are emptied into the fee payer in turn, the free one only if it holds anything; on an error no balance changes |
| `AuctionHouse.EveryoneIsPaid` | rust/auction-house/src/lib.rs:696-786 | after a sale every account, even one in several roles, has what it had, less the price if it is the escrow, plus its royalties, house fee and seller payment, which sum to the price |
| `AuctionHouse.SaleInFigures` | rust/auction-house/src/utils.rs:292-397 | between separate accounts the escrow pays the price, the house gets f with 10000 * f <= points * price < 10000 * (f + 1), each creator the like hundredths of the royalty, and a seller without creators the rest |
| `AuctionHouse.SettleKeepsTotal` | rust/auction-house/src/lib.rs:696-786 | no money is made or lost |
| `AuctionHouse.SaleSucceedsIff` | rust/auction-house/src/utils.rs:308-331 | a sale succeeds if and only if royalty, creator fees and house fee fit the price and the escrow holds what the payments need in turn, counting what it is paid itself |
| `AuctionHouse.SaleNeedsThePrice` | rust/auction-house/src/lib.rs:696-786 | the payments never need more than the price, and need all of it unless the escrow account is itself a creator, the house or the seller |
| `AuctionHouse.FullSharesFit` | rust/auction-house/src/utils.rs:393-397 | with shares summing to 100 and rates within 10000 no checked step fails, and the dust left to the seller is less than one unit per creator |
| `AuctionHouse.NoCreatorsFit` | rust/auction-house/src/utils.rs:389-397 | without creators the royalty goes back to the seller whole |
| `AuctionHouse.FundedSaleSucceeds` | rust/auction-house/src/lib.rs:696-786 | at such rates a sale fails for lack of funds only, and never with the price in the escrow |
| `AuctionHouse.TradeStatesEmptied` | rust/auction-house/src/lib.rs:833-858 | all trade-state lamports reach the fee payer once, even if trade states coincide |

## Left out

- Account plumbing: derived addresses, owner, delegate and associated-account checks, rent, account lists, bumps and account sizes other than the config account's and the bitmap's.
- The split between native and token payments: both do the same arithmetic, so there is one balance, and the two "not enough funds" errors are one.
- 64-bit overflow of a receiving balance in the auction house: the whole supply of a mint fits 64 bits.
- Token metadata, master editions, participation NFTs and the edition mint of a dish: instructions of other programs.
- Keccak itself: hashes of different tagged contents differ, and hashes are totally ordered.
- Outside transfers into ingredient stores: a store holds the one token that was put in.
- UTF-8: names and URIs are byte strings, so the decoder's check that they are UTF-8 is not modelled; padding with zeros preserves it, and a line garbled out of UTF-8 fails to decode where the model reads it back changed.
- The contents of the config account's header, of which only the length matters here; the payment, the go-live date and the metadata calls of a mint.
- Several candy machines over one config account.
- The random draw and the whitelist of the command line: the model starts from the vector of chosen tickets.
- Open editions, beyond the fact that they store no bids and the byte readers' view of them; ending an auction by time, which no list operation depends on.
- The bidder's and the pot's accounts: that a key has no live bid when it bids is assumed of runs, as `rust/auction/program/src/processor/place_bid.rs` (lines 179 to 186) ensures.
- Other gumdrop, token-entangler, token-vault and auction-house instructions: short guards that would add only easy members.
- AuctionManager.FastSave: where the straight shot misses, it states which bytes change but not what the damaged account then decodes to.
- CandyMachine.RunRefines: assumes batches that end within `max`, because the program does not check it; `ConfigOverrun.BatchReadsBackIff` and `ConfigOverrun.MarkFollowsLine` say what the bytes show otherwise.
- LaunchTheorems.SupplyNeverExceedsTokens: assumes that the bitmap is not rewritten harmfully in phase three, which the program does not check; `PhaseThreeRewrites.SupplyBoundIff` gives the supply bound for any number of rewrites under the exact condition.
- PhaseThreeTheorems.PhaseThreeEndsIff: speaks of continuations in which the clock does not go back and the bitmap is left alone; another bitmap can turn losers into winners.
