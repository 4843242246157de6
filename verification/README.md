# Verified models of Contender's core logic

Contender sends transactions to an Ethereum node, follows them until they land, records them in a
database and reports on them. This project models the parts of it where correctness is not visible
from any one function, and proves what they keep.

**The pending-transaction actor** (`TxActor`, `FlushProtocol`, `Effects`, `Delivery`, `Endings`, `SingleRow`,
`RowRaces`, `BlockCoverage`, `BlockRaces`, `Matching`, `Rows`, `Exits`, `Shutdown`, `ShutdownTight`,
`MarkOrder`). The actor caches sent transactions, buffers flashblock marks that arrive early, and serves snapshots to a flush
loop, which matches them against block receipts, writes rows, and asks the actor to drop what it
recorded. `TxActor` gives the handlers as functions and as a class with the actor's fields that is proved
against them; the actor's part in every run of the system is a run of that class. `FlushProtocol` is the
whole system as one transition function `Apply` over events: a message handled, a flush request taken, a
mark received, a loop spawned or cancelled, one step of a loop between two awaits. Chain heads, receipts,
clocks, insert failures and unheard replies are inputs of the events, so a statement about all event
sequences is one about all interleavings and failures. Any number of loops, spawned, cancelled and
replaced, is covered; where a result needs replacements to be orderly, its row says so. The state keeps
the last cache of an actor that has ended, whose task is gone; no result counts it as kept.

**The Uniswap V2 planner** (`UniV2`). The nested loops produce a setup plan, which is executed on a
ledger that rejects calls for lack of balance, approval or pair; whether the deposits are also large
enough to mint liquidity is a separate, exact result.

**Campaigns** (`Apportionment`, `Campaign`). The three-pass split of a rate by shares, and the
normalising, validating and resolving around it.

**Latency histograms** (`Buckets`, `LatencyMerge`). The interpolated quantile as the inverse of the
cumulative curve, and the merge of several runs.

**Smaller cores**: nonces of a plan (`Nonces`), the schema worklist of the build script (`Schemas`),
the pending-transactions chart (`PendingChart`), call strings (`CallString`). `Options`, `Naturals`,
`Text` and `Scenes` (short protocol runs for the witnesses) are shared helpers.

Some statements that the code's comments or names suggest do not hold of the code. The model follows
the code, shows an input, and proves exactly when the statement holds:

- A comment in `campaign.rs` promises at least rate 1 for every positive share when the rate allows it.
  The donor search skips the last entry and the last entry may be left with nothing. `UnservedMix` is a
  counterexample and `Apportion` states the exact condition (`CanServe`).
- `resolve` evaluates the spam-level duration and rate even where a stage has its own, so it can reject
  what `validate` accepts: `EagerDefaults`, and exactly when, `ValidResolvesExactly`.
- The rate split can reject a mix with ordinary shares: `RejectedMix`; `Apportion` says exactly when.
- A failed dump, an unheard reply or an unknown hash ends the actor, and what is cached is lost:
  `LostOnFailedDump`. `NoLoss` covers the running actor, and `RecordedExactly` says which transactions can
  still get a row once it has ended: those that a loop can still write.
- A dump, or the replacement of the flush receiver, can lead to a second row: `DumpRace`, `ReplaceRace`.
  `SafeExactly` states the exact condition, over all runs in which each hash is sent once: no dump and no
  replacement finds a cached transaction that the installed loop can still write, or has recorded
  without its removal having been handled. A dump or restart after the flush is complete meets it
  (`RestartIsAllowed`). The futures it ranges over may show any receipts, so that a transaction may be
  found in a second block, as after a reorganisation.
- The replacement of the flush receiver can have blocks processed twice: `BlockTwice`. `OrderlyExactly` and
  `ContiguousExactly` state the exact condition: no replacement finds the installed loop able to process a
  block, or with a removal on its way. A restart after the flush is complete meets it (`RestartIsOrderly`).
- A setup plan with small amounts reverts, because a first deposit has to exceed the liquidity that the
  pair locks away: `TooSmall`; `PlanScenario` and `MintableExactly` say exactly when.
- The call parser panics instead of reporting an invalid call when every `)` comes before the first `(`:
  `PanicInput`, and exactly when, `PanicsExactly`.
- A call survives printing and parsing only if it is plain: `LostCall`, and exactly when,
  `RoundTripExactly`.

## Model

| member | source | states |
|---|---|---|
| `TxActor.Actor.constructor` | crates/core/src/spammer/tx_actor.rs:190-208 | the actor starts with an empty cache, no marks and no context |
| `TxActor.Actor.HandleMessage` | crates/core/src/spammer/tx_actor.rs:243-319 | the fields become `Handle` of the old state, the rows written are those of a committed dump, and it fails for an unknown hash, a failed insert or an unheard reply |
| `TxActor.Actor.HandleFlashblockMark` | crates/core/src/spammer/tx_actor.rs:361-384 | the fields become `ReceiveMark` of the old state: the first mark wins, early marks wait within the capacity |
| `TxActor.Actor.Run` | crates/core/src/spammer/tx_actor.rs:387-428 | the main loop over the arriving requests ends in the state that the handlers give one after the other, and takes nothing more once the actor has stopped or failed |
| `TxActor.Actor.RemoveConfirmed` | crates/core/src/spammer/tx_actor.rs:329-356 | the two removal loops, the eviction and the target update together are `Confirm` on the set of the listed hashes |
| `FlushProtocol.ShapesHold` | crates/core/src/spammer/tx_actor.rs:432-595 | in every run each channel holds at most one snapshot request with at most one removal in front of it, so two requests at most |
| `Effects.EntersCacheExactly` | crates/core/src/spammer/tx_actor.rs:262-294 | only the send of a transaction puts it into the cache |
| `Effects.LeavesCacheExactly` | crates/core/src/spammer/tx_actor.rs:295-340 | a transaction leaves the cache of a running actor exactly by its removal, a clear, a dump, or a confirmation that names it |
| `Effects.MarkWaitsExactly` | crates/core/src/spammer/tx_actor.rs:372-383 | a mark starts to wait exactly if its transaction is not cached and fewer than 1024 marks wait |
| `Effects.MarkLeavesExactly` | crates/core/src/spammer/tx_actor.rs:270-280 | a waiting mark leaves exactly with the send or the confirmation of its transaction, or at a confirmation 20 seconds later |
| `Effects.EndsExactly` | crates/core/src/spammer/tx_actor.rs:243-319 | the actor ends exactly by a stop, the removal of an unknown hash, a failed dump, or a caller that no longer listens |
| `Effects.LandsExactly` | crates/core/src/spammer/tx_actor.rs:604-700 | a block counts as processed exactly unless a pending transaction has a receipt in it and the insert fails |
| `Delivery.ActorPart` | crates/core/src/spammer/tx_actor.rs:387-428 | in every run of the system the actor state is the one that a run of the actor on the requests it takes, `RequestsOf`, leaves |
| `Delivery.ReachableStates` | crates/core/src/spammer/tx_actor.rs:235-384 | in every run cache keys are their entries' hashes, each entry has both mark fields or neither, cache and buffer are disjoint, and the buffer holds at most 1024 marks |
| `Delivery.MarkSticks` | crates/core/src/spammer/tx_actor.rs:361-384 | over any continuation a marked entry is unchanged as long as it is cached and not sent again |
| `Delivery.RemovalsAreBacked` | crates/core/src/spammer/tx_actor.rs:534-543 | in every run each queued or imminent removal names only hashes that already have a row |
| `Delivery.NoLoss` | crates/core/src/spammer/tx_actor.rs:212-358 | in every run, while the actor runs, a hash whose send was handled, and that no later RemovedRunTx or ClearCache hits, is cached or has a row |
| `Endings.RecordedExactly` | crates/core/src/spammer/tx_actor.rs:387-428 | once the actor has ended, by a stop or an error, some continuation gives a hash a row if and only if it has one or a loop can still write it |
| `Endings.LostOnFailedDump` | crates/core/src/spammer/tx_actor.rs:228-230 | after a dump whose insert fails, the transaction sent before never gets a row, whatever follows |
| `Delivery.NoInvention` | crates/core/src/spammer/tx_actor.rs:650-700 | in every run every row carries the hash, start time, kind, end time and error of a transaction that was reported as sent |
| `Rows.RowsAreTrue` | crates/core/src/spammer/tx_actor.rs:650-712 | in every run whose loops meet the receipts and timestamps of a chain, every row has the start, kind and hash of a sent transaction; a row for a block has the gas of the receipt, the sender's end or the block's time in ms, "execution reverted" exactly for a failed receipt and else the sender's error; a row without a block has no gas and the sender's end and error; the latency is a mark minus the start, not below 0 |
| `Rows.LandedRowExactly` | crates/core/src/spammer/tx_actor.rs:663-693 | processing a block adds one row for each matched transaction, with every field given by the cached transaction, its mark, the receipt, the block and the context that the round began with |
| `Rows.DumpedRowExactly` | crates/core/src/spammer/tx_actor.rs:213-227 | a dump adds one row for each cached transaction, with the dump's run id, no block, no gas, and every other field as cached |
| `SingleRow.AtMostOneRow` | crates/core/src/spammer/tx_actor.rs:501-571 | with each hash sent once, any number of loops, and dumps and receiver replacements that find nothing exposed, no hash has two rows at any point of a run |
| `SingleRow.RestartIsAllowed` | crates/core/src/orchestrator.rs:826-833 | once the installed loop has exited, a dump or a replacement exposes nothing |
| `RowRaces.SafeStep` | crates/core/src/spammer/tx_actor.rs:301-310 | after a run of allowed steps, a further event leaves the loops no way to a second row if and only if it is allowed |
| `RowRaces.SafeExactly` | crates/core/src/spammer/tx_actor.rs:501-571 | for every run with each hash sent once: at no point can the loops, meeting any receipts, bring a hash to two rows if and only if every dump and every replacement finds no cached transaction exposed |
| `RowRaces.DumpRace` | crates/core/src/spammer/tx_actor.rs:212-233 | from a state that a run reaches, a dump and two loop steps give one hash two rows |
| `RowRaces.ReplaceRace` | crates/core/src/spammer/tx_actor.rs:308-310 | a run in which the replacement drops a queued removal, and the new loop writes the transaction a second time |
| `BlockCoverage.TargetNeverDecreases` | crates/core/src/spammer/tx_actor.rs:350-355 | between context initialisations the context's target block never decreases, over any run |
| `BlockCoverage.OwnBlocksIncrease` | crates/core/src/spammer/tx_actor.rs:534-575 | from any state on, without a new context, the blocks that one loop processes successfully are strictly increasing, however receivers are replaced |
| `BlockCoverage.SessionHolds` | crates/core/src/orchestrator.rs:826-833 | every run with orderly replacements has one active loop at a time, and no other can process a block |
| `BlockCoverage.NoBlockTwice` | crates/core/src/spammer/tx_actor.rs:534-575 | from any state of a session on, without a new context and with orderly replacements, the blocks that all loops process successfully are strictly increasing, failures or not |
| `BlockCoverage.ContiguousFrom` | crates/core/src/spammer/tx_actor.rs:511-575 | from any position of the active loop, with orderly replacements and no failing block, the blocks that all loops process are the one that is due, its successor and so on |
| `BlockCoverage.BlocksAreContiguous` | crates/core/src/spammer/tx_actor.rs:511-575 | for a context that arrives while the active loop is anywhere between rounds, the blocks that all loops process are exactly the target, its successor and so on, despite the early break, the local jump and orderly restarts |
| `BlockCoverage.RestartIsOrderly` | crates/core/src/orchestrator.rs:826-833 | once the installed loop has exited, a replacement is orderly |
| `BlockRaces.OrderlyExactly` | crates/core/src/spammer/tx_actor.rs:308-310 | for every run under such a context: no continuation without a replacement ever has a block processed twice or out of order if and only if every replacement was orderly |
| `BlockRaces.ContiguousExactly` | crates/core/src/spammer/tx_actor.rs:308-310 | for such runs without a failing block: no continuation leaves the contiguous sequence if and only if every replacement was orderly |
| `BlockRaces.BlockTwice` | crates/core/src/spammer/tx_actor.rs:308-310 | from a state that a run reaches, a replacement during a round and a run that breaks the order |
| `Matching.SnapshotIsLastAnswer` | crates/core/src/spammer/tx_actor.rs:511-560 | in every run a loop processes blocks with the cache as it was when the actor last answered it |
| `Matching.MatchedExactly` | crates/core/src/spammer/tx_actor.rs:534-560 | for any loop of a session with orderly replacements: a transaction has a row for the block that the loop processed, in the end, if and only if its receipt is in the block and it was cached at the last answer to that loop before it |
| `Matching.LateSendIsNeverMatched` | crates/core/src/spammer/tx_actor.rs:650-700 | in such a session a send handled after that answer never gets a row with a block number |
| `Exits.ExitedIsEntitled` | crates/core/src/spammer/tx_actor.rs:480-568 | in every run a loop that has exited was cancelled, or its receiver was dropped |
| `Exits.ExitsExactly` | crates/core/src/spammer/tx_actor.rs:446-593 | a loop with its receiver in place exits at a step exactly if it is cancelled and finds an empty snapshot at a check, or is stale at the end of a round over pending transactions; one without exits also at its next request or unanswered wait |
| `Exits.StaleExitExactly` | crates/core/src/spammer/tx_actor.rs:577-592 | in every run the end of a round exits exactly if the loop is cancelled, transactions are pending, and the blocks of the latest rounds over an unchanged pending count come to at least six |
| `Exits.NothingPendingExits` | crates/core/src/spammer/tx_actor.rs:480-529 | with nothing pending a cancelled loop at the top exits with its next request, whether there is a new block or not |
| `Exits.AsksAfterRound` | crates/core/src/spammer/tx_actor.rs:574-575 | after a round the loop asks again exactly for a block beyond the round and its own target, or when it is cancelled |
| `Exits.AsksAfterAnswer` | crates/core/src/spammer/tx_actor.rs:511-523 | after an answer without a round it asks again exactly for a block beyond the answered target, or when it is cancelled |
| `Exits.AsksAfterRefresh` | crates/core/src/spammer/tx_actor.rs:553-575 | after a refresh that ends the round it asks again exactly for a block beyond the round and the refreshed target, or when it is cancelled |
| `Shutdown.ExitsWithin` | crates/core/src/spammer/tx_actor.rs:525-593 | a cancelled loop in any position, with N pending transactions, no further sends and no new context, sees at most 6N + 1 rounds with a new block in any run, and one more only if it is just about to enter a round with a non-empty snapshot of other transactions than those pending; once it has seen that many it has exited or is in its last round |
| `ShutdownTight.BoundIsTight` | crates/core/src/spammer/tx_actor.rs:574-592 | for every N there is a reachable state with N pending in which the extra round is granted, and a run with exactly 6N + 2 rounds |
| `ShutdownTight.BoundIsTightBetween` | crates/core/src/spammer/tx_actor.rs:574-592 | for every N there is a reachable state with N pending and the loop between rounds, and a run with exactly 6N + 1 rounds |
| `Shutdown.StaleIsBounded` | crates/core/src/spammer/tx_actor.rs:577-592 | in every run the stale counter of a loop that has not exited is below 6 |
| `MarkOrder.ReplaySettles` | crates/core/src/spammer/tx_actor.rs:262-290 | every interleaving of sends and marks without drops ends in the state those two sequences determine |
| `MarkOrder.SettledIsUnique` | crates/core/src/spammer/tx_actor.rs:262-290 | that state is unique |
| `MarkOrder.FirstMarkIsFirst` | crates/core/src/spammer/tx_actor.rs:363-371 | the mark a settled transaction carries is the earliest one received for its hash |
| `MarkOrder.OrderDoesNotMatter` | crates/core/src/spammer/tx_actor.rs:361-384 | two interleavings of the same sends and the same marks end with the same cache and the same buffer |
| `MarkOrder.RoomForAll` | crates/core/src/spammer/tx_actor.rs:372-383 | with at most 1024 marks no interleaving drops any |
| `UniV2.TermsAreSound` | crates/cli/src/default_scenarios/uni_v2.rs:98-103 | the liquidity is half the supply and the pool amount the (n + 1)-th part of that, both rounded down; n pools fit into the liquidity, and twice the liquidity into the supply |
| `UniV2.PlanSteps` | crates/cli/src/default_scenarios/uni_v2.rs:171-305 | the loops push exactly the recursive plans `SetupPlan` and `SpamPlan` |
| `UniV2.PlanExecutes` | crates/cli/src/default_scenarios/uni_v2.rs:244-305 | at every position of the plan the setup so far executes, with the exact balances, pools, approvals and transfers of that position |
| `UniV2.EveryPrefixExecutes` | crates/cli/src/default_scenarios/uni_v2.rs:247-305 | no prefix of an executable plan overdraws an account or reverts |
| `UniV2.PairCounts` | crates/cli/src/default_scenarios/uni_v2.rs:262-296 | in an executed plan a pair is created once if it exists and never otherwise, and likewise funded once or never |
| `UniV2.FundedAfterCreation` | crates/cli/src/default_scenarios/uni_v2.rs:244-296 | every deposit comes after the one creation of its pair and after the approval of both assets |
| `UniV2.PlanSwaps` | crates/cli/src/default_scenarios/uni_v2.rs:274-300 | at every position the spam holds exactly one swap per direction of each pair set up, with the right amount |
| `UniV2.PlanLength` | crates/cli/src/default_scenarios/uni_v2.rs:244-305 | the number of setup and spam steps at every position |
| `UniV2.PlanTolerant` | crates/cli/src/default_scenarios/uni_v2.rs:200-226 | every deposit tolerates one percent less of both amounts, rounded down |
| `UniV2.MintsAboveRoot` | crates/cli/src/default_scenarios/uni_v2.rs:260-296 | a first deposit mints exactly if the integer root of the product of its amounts exceeds 1000 |
| `UniV2.PlanMints` | crates/cli/src/default_scenarios/uni_v2.rs:260-296 | at every position all deposits so far mint liquidity if and only if the products of the amounts of the pairs set up are large enough |
| `UniV2.MintableExactly` | crates/cli/src/default_scenarios/uni_v2.rs:260-296 | the whole setup executes with the minimum-liquidity rule of Uniswap V2 pairs if and only if `Mintable` holds of the arguments |
| `UniV2.TooSmall` | crates/cli/src/default_scenarios/uni_v2.rs:98-103 | arguments for which it does not |
| `UniV2.PlanScenario` | crates/cli/src/default_scenarios/uni_v2.rs:171-305 | for every token count and all amounts no step of the setup lacks balance, approval or pair; it ends with 0 WETH, half of each supply with unicheat, the (n + 1)-th part of that in every pool and the rest with the sender; all pools are funded once and after their approvals; n(n + 1) swaps, one per direction of every pair; it reverts nowhere if and only if `Mintable` holds |
| `Apportionment.MaxIndex` | crates/testfile/src/campaign.rs:194-198 | the last index of the largest entry |
| `Apportionment.Repair` | crates/testfile/src/campaign.rs:180-206 | the first entries in the list of zeros get a 1 as far as there is excess before the last entry; total, excess and non-last sum are exactly accounted for, and donors stay level |
| `Apportionment.RepairIsDetermined` | crates/testfile/src/campaign.rs:190-204 | that description fits only one outcome, so it pins down which entries give |
| `Apportionment.RepairGuarantees` | crates/testfile/src/campaign.rs:180-206 | the total is conserved, the non-last sum never rises, no new zero appears, and a zero survives only if every non-last entry is at most 1 |
| `Apportionment.RoundAndRepair` | crates/testfile/src/campaign.rs:170-206 | rounding, followed by the repair exactly when the rate covers the positive shares |
| `Apportionment.Place` | crates/testfile/src/campaign.rs:208-250 | the last entry gets what is left, and it is an error exactly if the others exceed the rate |
| `Apportionment.Apportion` | crates/testfile/src/campaign.rs:165-250 | rejected exactly if `Assigned` exceeds the rate, else the rates add up to the rate, and every positive share is served exactly under `CanServe` |
| `Apportionment.TooLittleIsRounded` | crates/testfile/src/campaign.rs:180-182 | if the rate is below the number of positive shares, every entry before the last is its share of the rate, rounded to the nearest, halves up |
| `Apportionment.EnoughIsRepaired` | crates/testfile/src/campaign.rs:180-204 | otherwise a positive share before the last gets nothing only if no entry there exceeds 1 |
| `Apportionment.SplitIsDetermined` | crates/testfile/src/campaign.rs:165-250 | shares and rate determine the split |
| `Apportionment.NeverExceeds` | crates/testfile/src/campaign.rs:215-223 | mixes of up to two entries, or with a last ideal share of at least (n - 1)/2, are never rejected |
| `Apportionment.NearIdeal` | crates/testfile/src/campaign.rs:170-178 | a rounded split has each entry within 1/2 of rate times share over total and the last within (n - 1)/2 |
| `Apportionment.IdealsTotal` | crates/testfile/src/campaign.rs:170-178 | the ideal rates add up to the rate |
| `Apportionment.RejectedMix` | crates/testfile/src/campaign.rs:215-223 | shares 50, 50, 0 at rate 3 are rejected |
| `Apportionment.UnservedMix` | crates/testfile/src/campaign.rs:180-206 | shares 1, 1, 8 at rate 3 are accepted and leave positive shares without rate |
| `Campaign.Validate` | crates/testfile/src/campaign.rs:115-139 | accepts exactly the valid configurations and otherwise reports the first fault, with its index and name |
| `Campaign.ResolveMix` | crates/testfile/src/campaign.rs:209-248 | the resolved mix keeps the order, the scenarios and the shares |
| `Campaign.ResolveStage` | crates/testfile/src/campaign.rs:146-258 | a stage resolves exactly under `StageResolves`, to the determined split that adds up to its rate; otherwise the fault is the one reported |
| `Campaign.Resolve` | crates/testfile/src/campaign.rs:142-262 | resolves exactly if every normalised stage does, stage by stage in order; otherwise the first fault is reported |
| `Campaign.NormalFormExactly` | crates/testfile/src/campaign.rs:267-293 | which spam sections have a normal form, and which of four faults the others have |
| `Campaign.ShorthandIsOneStage` | crates/testfile/src/campaign.rs:275-290 | the shorthand resolves to one stage named steady with the rate, the duration and the mix of the spam section |
| `Campaign.StagesInOrder` | crates/testfile/src/campaign.rs:142-163 | explicit stages resolve in order, each with its own rate and duration or else those of the spam section |
| `Campaign.ShareLimit` | crates/testfile/src/campaign.rs:153-158 | a share total of 3e-16 is accepted, one of 2e-16 is not |
| `Campaign.ValidResolvesExactly` | crates/testfile/src/campaign.rs:147-163 | a valid configuration resolves exactly if both spam-level defaults are present, share sums are positive and no split is rejected |
| `Campaign.EagerDefaults` | crates/testfile/src/campaign.rs:147-163 | a configuration whose stage has its own duration and rate is valid and does not resolve |
| `Buckets.EstimateQuantile` | crates/core/src/buckets.rs:62-90 | for q in [0, 1] the cumulative curve at the estimate lies in [q total, q total + 1), and the estimate is the least x that reaches the rounded-up count, inside the first bucket that covers it; 0 for no buckets, the last bound beyond the total |
| `Buckets.CurveAtBounds` | crates/core/src/buckets.rs:71-86 | the curve is 0 at 0, the cumulative count at each bound, and the last count behind the last bound |
| `Buckets.CurveIsStraight` | crates/core/src/buckets.rs:71-86 | between neighbouring bounds, and from 0 to the first, it is a straight line |
| `Buckets.CurveMonotone` | crates/core/src/buckets.rs:71-86 | it never falls |
| `Buckets.TargetIsShare` | crates/core/src/buckets.rs:68-69 | the target is q times the total, rounded up |
| `Buckets.TargetInRange` | crates/core/src/buckets.rs:68-69 | for q in [0, 1] the target does not exceed the total |
| `Buckets.QuantileMonotone` | crates/core/src/buckets.rs:63-89 | a larger q never gives a smaller estimate, and an estimate is unique |
| `LatencyMerge.Merge` | crates/report/src/command.rs:296-316 | the loop over runs and buckets computes `Merged`, whose meaning the next three rows give |
| `LatencyMerge.MergedIsWellFormed` | crates/report/src/command.rs:296-316 | runs with shared bounds merge into a sorted histogram with those bounds, empty only if all are |
| `LatencyMerge.MergedCurve` | crates/report/src/command.rs:303-312 | at every latency the merged curve is the sum of the runs' curves |
| `LatencyMerge.MergedQuantileBound` | crates/core/src/buckets.rs:62-89 | for every q in [0, 1] the least latency that a q-part of the merged observations do not exceed is at most the largest such latency of a run |
| `Nonces.Emit` | crates/core/src/generator/trait.rs:387-394 | one transaction takes the tracked or the fetched nonce and keeps the allocation invariant; it fails exactly if the fetch does |
| `Nonces.SenderFaults` | crates/core/src/generator/trait.rs:208-234 | which fault a step without a sender has |
| `Nonces.AllAccountsSend` | crates/core/src/generator/trait.rs:427-447 | a step for all accounts is sent once by every signer of its pool, in the order of the pool |
| `Nonces.OneAccountSends` | crates/core/src/generator/trait.rs:208-234 | any other step is sent once, by the first signer of its pool or by the address it names |
| `Nonces.LoadTxs` | crates/core/src/generator/trait.rs:427-491 | succeeds if and only if the plan has senders and the provider answers where an untracked sender first occurs; then the i-th transaction has the i-th sender and that sender's start plus its earlier transactions, the start is the tracked nonce or the one fetched at the first occurrence, and the returned map is start plus count for senders and unchanged for all others; otherwise the error is that of the first faulty step or of the provider |
| `Nonces.NoncesAreUnique` | crates/core/src/generator/trait.rs:463-473 | no two transactions share sender and nonce, and all are below the returned nonce |
| `Schemas.ScanBody` | crates/cli/build.rs:952-967 | exactly the unvisited names that the scan finds are queued |
| `Schemas.RefsSound` | crates/cli/build.rs:952-966 | every name found follows an occurrence of the reference prefix |
| `Schemas.RefsComplete` | crates/cli/build.rs:952-966 | every occurrence is found, unless it lies inside the name of an earlier one |
| `Schemas.OneReference` | crates/cli/build.rs:953-966 | a body with one reference, ended by a quote, yields exactly the name written there |
| `Schemas.LessAtDifference` | crates/cli/build.rs:970 | the order is that of the first different character, with a proper prefix first |
| `Schemas.SortNamesSorted` | crates/cli/build.rs:970 | the list without repeats becomes strictly increasing and keeps its elements |
| `Schemas.CollectReferencedSchemas` | crates/cli/build.rs:930-972 | ends on every schema graph, cyclic ones included, with the strictly sorted list of exactly the names reachable from the seeds |
| `PendingChart.BuildChart` | crates/report/src/chart/pending_txs.rs:17-45 | the chart has exactly the seconds of the padded window, each with the number of transactions pending in it |
| `PendingChart.ChartExactly` | crates/report/src/chart/pending_txs.rs:17-45 | the chart runs from one second before the second of the earliest start, or 0, to that of the latest landing, and counts in each second the transactions sent before its end and not landed at its beginning |
| `PendingChart.ChartArea` | crates/report/src/chart/pending_txs.rs:17-45 | the sum of all counts is the sum of the pending times: from the start to the landing rounded up, or to the last charted second if unconfirmed |
| `CallString.ParsedIsPlain` | crates/cli/src/default_scenarios/custom_contract.rs:366-392 | whatever the parser accepts has a non-empty name without `(` and trimmed, comma-free arguments, and is never the single empty argument |
| `CallString.InvalidExactly` | crates/cli/src/default_scenarios/custom_contract.rs:369-380 | a text is invalid exactly without an opening or a closing parenthesis or without a name |
| `CallString.ParsesPieces` | crates/cli/src/default_scenarios/custom_contract.rs:369-391 | the name stands before the first parenthesis; the arguments are the pieces between the commas up to the last closing one, trimmed, or none if all is blank |
| `CallString.PrintedText` | crates/cli/src/default_scenarios/custom_contract.rs:394-397 | arguments are printed with a comma and a blank between them |
| `CallString.RoundTripExactly` | crates/cli/src/default_scenarios/custom_contract.rs:366-397 | parsing the printed call gives the call back if and only if it is plain |
| `CallString.LostCall` | crates/cli/src/default_scenarios/custom_contract.rs:366-397 | the call of `f` with the argument ` a` is not plain and is lost |
| `CallString.Normalises` | crates/cli/src/default_scenarios/custom_contract.rs:366-397 | printing and parsing again an accepted text changes nothing |
| `CallString.PanicsExactly` | crates/cli/src/default_scenarios/custom_contract.rs:369-381 | the parser panics exactly if a name is followed by `(` and every `)` comes before it |
| `CallString.PanicInput` | crates/cli/src/default_scenarios/custom_contract.rs:369-381 | it panics on `a)(` |

## Left out

- Liveness: that the actor keeps answering and blocks keep coming is an assumption of no statement and a conclusion of none.
- Wait loops, retries and timeouts of block fetching; a block is processed with some set of receipts or its insert fails, and a fetched block has the number it was asked for.
- The order of snapshots, confirmed lists and rows inside one insert: a snapshot is a map and a confirmed list a set, since the hash map they come from has no order.
- Integer widths and the panics of narrowing casts, except the chart's largest timestamp; counters and amounts are unbounded.
- Floating point: shares, bounds and quantiles are exact reals, so rounding, infinities and NaN are not modelled.
- Buckets.EstimateQuantile: assumes positive, strictly increasing bounds and non-decreasing counts, as the histogram registry and the database deliver them; the code does not check this.
- UniV2.PlanScenario: later deposits into a pool, ETH balances, gas, deadlines and the create steps are not part of the ledger.
- Nonces.LoadTxs: templating and callback failures, the chaining of a sender's tasks and the spam plans are not modelled; an address given as text is taken as parsed.
- Schemas.CollectReferencedSchemas: the names collected from the method types are taken as given.
- UTF-8: positions in texts count characters, not bytes.
- RPC, websocket, engine-API and bundle transports, SQL, signing and ABI encoding.
- Builders, conversions, report rendering, the session cache and the other scenarios: their logic is straightforward.
