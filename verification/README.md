# Verification of the sat index, the wallet's transaction builder and the commitment protocols

This project models the parts of the program in which many steps have to fit together, and proves with
Dafny what they promise over all inputs and whole runs.

- **The sat index.** `SubsidySchedule`, `SatRanges`, `LedgerModel`, `Conservation`, `RareSats`, `RangeSearch`,
  `OrdinalTheory`, `SatIndex`, `IndexRuns` and `UpdateLoop`. Blocks move ranges of sats from inputs to outputs, first
  in, first out. `LedgerModel` says on a plain map what a block does; the other modules prove that every mined sat is
  then in exactly one place, that the table of first-of-block sats is exact, and that the class `SatIndex.Index`, with
  its write-back cache, database, script table and commit schedule, computes just that. `OrdinalTheory` is the BIP's own
  assignment of single sats, and every output is proved to hold the same sats in the same order after any chain, and
  any run, of the index. Lookups are proved against the same map. `Reorg` finds forks and rolls back to savepoints, and
  `IndexRuns` joins it to the index over all runs: whatever was committed, rolled back or restarted, the committed
  ledger is that of its headers. `UpdateLoop` is the program's update loop over both, proved to be such a run.
- **The transaction builder.** `CoinSelection`, `BuildChecks`, `TransactionBuilder`, `BuildWitnesses` and
  `SatDelivery`. The class `Builder` has a method for each stage, the last of which is a list of assertions. The
  verdict on a request - error, panic or transaction - is told from the request alone. What is returned keeps the
  books, spends the best coins, leaves other inscriptions alone and starts the recipient's output with the outgoing
  sat; coins run out only if all together are too few. `SatDelivery` proves with the index's own assignment that the
  sat arrives there. Sizes are weight units (BIP 141, "Transaction size calculations"); fees are any monotone function
  of the virtual size.
- **Merkle trees and attestations.** `Merkle` and `OtsAttest`. Roots and paths, and the verdict on a proof: which of
  the six it is, told from where its paths end.
- **Protocols over durable state.** `CalendarCustody` is the calendar as a state machine whose saves may fail and
  which may restart at any moment; `CalendarService` has its methods, and `CalendarProofs` says what each event does and
  that a proof that is handed out was made for the digest asked for. `CommitProtocol` and `CommitStore` are the
  timestamp, upgrade and import operations over metadata, order table, log and published proofs. `BrecciaLog` and
  `BrecciaEntry` are the log file and its records.
- **Codecs.** `Bytes`, `RangeCodec`, `Varint`, `UtxoEntry` and `Decimal`.

Some things that the program's texts promise hold only under a condition. Each comes with its exact condition and
with an input or a run that fails:

- The builder's last assertions do fail on some requests, and the program then panics. `OrdinaryVerdict` in
  `TransactionBuilder.Builder` says exactly when it does not, at whole and fractional rates; the methods of
  `BuildWitnesses` run the builder into panics, three of them on requests that the wallet makes itself.
  Whenever a transaction is returned, the outgoing sat is delivered (`SatDelivery.ReturnedDelivers`) and other
  inscriptions of its output go back to the wallet (`SatDelivery.OthersGoBack`).
- Timestamping that fails because the new order key belongs to another commitment still rolls back, and deletes that
  commitment's order entry (`CommitProtocol.RollbackWithoutCommit`, `CommitStore.SameAnswerTwice`).
- The calendar reads its snapshot without the lock and installs it later. A digest acknowledged in between is lost with
  the next save; custody survives exactly when the snapshot is still up to date (`CalendarCustody.InstallKeepsExactly`,
  `CalendarCustody.StaleInstallLoses`). The worker reads at the start of each turn. The service's own reload reads the
  same way (`CalendarCustody.ServiceInstallKeepsExactly`), though nothing in the repository calls it.
- Else the calendar keeps every acknowledged digest unless a batch is stored in the place of a different one with the
  same root; that takes a submitted digest that is itself the hash of two (`CalendarCustody.HashOfAPairLosesThePair`).
- After a rollback the savepoints match the chain again exactly if none is above the restored one
  (`Reorg.StaleExactlyAboveRestored`, over runs `IndexRuns.SavepointsStayPrefixes`); one that is left above can later
  be restored although the node never had its blocks (`Reorg.StaleSavepointMisleads`).
- A fork that is called recoverable need not have a savepoint below it: the depth that is allowed depends on how far the
  height is into its interval, the savepoints on when the last one was made (`Reorg.RecoverableExactly`,
  `Reorg.RecoverableWithoutSavepoint`). With the default settings that is so after 19 blocks (`Reorg.NineteenBlocks`).
- The height recorded in the log for a confirmed proof is that of the first Bitcoin attestation. If that attestation
  holds it is the confirmed one (`OtsAttest.FirstClaimDecides`); else they agree only by a coincidence of heights, and
  `OtsAttest.RecordedHeightMayDiffer` is a proof where they do not.
- A log record of the first kind is misread exactly when its root begins with the tag of the second kind.
- A plus sign after a decimal point is accepted and counted as a digit; what is parsed is then in normal form exactly
  unless only zeros follow the sign (`Decimal.ParsedIsNormal`).

Preconditions that the program takes from its surroundings: blocks are valid, so inputs exist unspent, outputs do not
exceed inputs and the coinbase does not exceed subsidy and fees; no transaction recreates an unspent outpoint (BIP 30),
and no transaction has the all-zero id; a sat that is looked up is below the supply, as parsing ensures; one anchor
worker runs at a time.

`dafny verify dfyconfig.toml` checks the project.

## Model

| member | source | states |
|---|---|---|
| SubsidySchedule.ClosedFormIsSum | crates/ordinals/src/height.rs:12-22 | The starting sat computed from the epoch table and the subsidy equals, at every height, the sum of all earlier subsidies. |
| SubsidySchedule.SupplyIsTheLimit | crates/ordinals/src/epoch.rs:45-57 | No height starts beyond the supply, and from the first epoch without subsidy on every height starts exactly at it. |
| SubsidySchedule.HeightOfBrackets | crates/ordinals/src/sat.rs:19-22 | The height computed for a sat by division is that of the block that mines it. |
| SubsidySchedule.MinedExactlyBelow | src/index.rs:805-815 | The height test of a lookup passes exactly for sats below the starting sat of the next block. |
| SubsidySchedule.UncommonExactlyFirstOfBlock | crates/ordinals/src/sat.rs:99-110 | The divisibility shortcut calls a sat uncommon exactly when it is the first sat of a block with a subsidy. |
| SatRanges.AssignConserves | src/index/updater.rs:701-760 | The flattened inputs are the flattened outputs, in order, followed by the leftover; the leftover is inputs minus outputs. |
| SatRanges.AssignIsSlicing | src/index/updater.rs:701-755 | First in, first out, without the algorithm: sat i of output j is the input sat that stands i places after the values of all earlier outputs. |
| SatRanges.AssignOccurs | src/index/updater.rs:701-760 | Every sat occurs in outputs and leftover as often as in the inputs. |
| Conservation.IndexTxCounts | src/index/updater.rs:560-620 | A transaction leaves the number of places of every sat, fees included, unchanged. |
| Conservation.IndexBlockCounts | src/index/updater.rs:480-659 | A block adds one place for exactly the sats it mines and leaves all others as they were. |
| Conservation.CountingIsPartition | src/index/updater.rs:428-662 | Counting every mined sat once and every other sat never is the same as: each mined sat has exactly one location and nothing else has any; both directions. |
| Conservation.RecreatedOutpointForgets | src/index/updater.rs:616-619 | Replacing an unspent outpoint keeps all sats exactly when the old entry held none; so BIP 30 is a needed precondition. |
| RareSats.FirstOfBlockIsStart | src/index/updater.rs:719-731 | A range inside one block can contain the first sat of a block only as its start, so looking at starts is enough. |
| RareSats.IndexTxMidway | src/index/updater.rs:560-620 | One transaction keeps every invariant: ranges inside blocks, one place for each sat, an exact rare-sat table, the lost total. |
| RareSats.IndexBlockSound | src/index/updater.rs:428-662 | One block keeps every invariant at block boundaries, for the next height. |
| RareSats.TableIsExact | src/index/updater.rs:622-645 | The rare-sat table has an entry for exactly the mined first-of-block sats, and it is the one location of the sat. |
| RareSats.EverySatInExactlyOnePlace | src/index/updater.rs:428-662 | After any run of valid blocks from the empty index, the entries partition exactly the mined sats and the rare-sat table answers as a full scan would. |
| SatIndex.UncommonOnMainnet | crates/ordinals/src/sat.rs:99-110 | Uncommon and below the supply is first of its block, for the real schedule. |
| SatIndex.Index.MintedRanges | src/index/updater.rs:485-493 | The range a block mines, computed by the closed form, is the block's part of the schedule; none without a subsidy. |
| SatIndex.Index.FillOutput | src/index/updater.rs:707-749 | The loop over input ranges takes exactly the output's value from the front, splits the last range touched, and notes every rare start with its offset. |
| SatIndex.Index.IndexTransactionSats | src/index/updater.rs:676-763 | The two loops compute the first-in first-out assignment and its leftover, and record the rare sats of every output. |
| SatIndex.Index.Spend | src/index/updater.rs:512-535 | Spending returns the entry of the plain map and removes it there, from cache or database; the panic for a missing script entry cannot be reached. |
| SatIndex.Index.SpendInputs | src/index/updater.rs:504-555 | All inputs are spent in order, and their ranges are concatenated in order. |
| SatIndex.Index.InsertOutputs | src/index/updater.rs:616-619 | Every output is put into the plain map under its index, with its script. |
| SatIndex.Index.AppendLostRanges | src/index/updater.rs:622-654 | Unclaimed sats follow the old ranges of the null outpoint, are noted when rare, and are added to the lost count. |
| SatIndex.Index.IndexTransaction | src/index/updater.rs:495-620 | One transaction computes the specified step on the plain map, the table and the fees. |
| SatIndex.Index.IndexCoinbase | src/index/updater.rs:571-659 | The coinbase, indexed last, receives the mined range and the fees, and its leftover is lost. |
| SatIndex.Index.IndexBlock | src/index/updater.rs:428-662 | Indexing a block through cache and database computes the specified block step on the plain map they stand for, and keeps it sound. |
| SatIndex.Index.Flush | src/index/updater.rs:781-809 | Moving one cached entry to the database, merged if it is special, leaves the plain map and the inverse script table unchanged. |
| SatIndex.Index.Commit | src/index/updater.rs:765-825 | A commit changes nothing in the plain map, empties the cache, and what is committed is then that map at the present height. |
| SatIndex.Index.Restart | src/index.rs:449-470 | After a restart the index is the committed one, at the committed height. |
| SatIndex.Index.RollBack | src/index/reorg.rs:62-103 | When a savepoint's files are put in place, the index is the saved one, at its height. |
| SatIndex.Index.CommitIfDue | src/index/updater.rs:139-180 | The commit schedule keeps the plain map, and the check of the committed height after a commit never stops the loop. |
| SatIndex.KeptExactly | src/index/updater.rs:139-180 | What commits have covered lags by less than the interval and behind no due block; without due blocks it is a multiple of the interval. |
| SatIndex.Index.UpdateIndex | src/index/updater.rs:45-222 | Under any commit schedule, any stop and with or without a block that does not follow: the index is that of a prefix of the blocks and is committed; the prefix is everything indexed, or, when the update fails, exactly what the commits had covered. No block is indexed after the first request to stop. |
| SatIndex.Index.List | src/index.rs:908-929 | The sat at each offset of the listed ranges is at that place of the output and nowhere else; nothing is listed exactly for an outpoint without an entry, where no sat is. |
| SatIndex.Index.GetAddressInfo | src/index.rs:1018-1028 | After a commit, exactly the unspent outputs with the script. |
| SatIndex.Index.Find | src/index.rs:805-842 | A sat is found exactly when it is mined, and the answer is its only location, where listing shows it. |
| SatIndex.Index.FindRange | src/index.rs:845-906 | For every pair of bounds: a panic exactly for an end of zero or beyond the supply, not mined, or a bad range; else the pieces are disjoint, each at its true location, and together they are the range. |
| SatIndex.Index.FindPieces | src/index.rs:866-903 | The scan of the entries; the remaining count never underflows. |
| SatIndex.TraceOf | src/index/updater.rs:99-180 | Valid blocks have a trace: the ledgers between them, from which any part can be kept. |
| SatIndex.ChainSnoc | src/index/updater.rs:99-180 | One more valid block behind a chain makes a chain, whose ledger is the block's on the chain's. |
| OrdinalTheory.TxFollows | src/index/updater.rs:560-620 | A transaction of the index, with its ranges and its fee pool, is a transaction of the BIP: the same sats in the same order in every output, and what is left goes behind what the coinbase collects. |
| OrdinalTheory.BlockFollows | bip.mediawiki:85-103 | So is a block: the coinbase takes the mined sats first and then the fees, the last transaction's last; what it leaves is kept as lost, in order, of which the BIP says nothing. |
| OrdinalTheory.ChainFollows | bip.mediawiki:85-103 | After every chain of valid blocks the index holds, output by output and in order, the sats that the BIP assigns, and no other output. |
| OrdinalTheory.PoolGrows | src/index/updater.rs:485-586 | Later transactions put their fees behind what is pooled. |
| OrdinalTheory.PoolSnoc | src/index/updater.rs:585-587 | What one more transaction adds to the pool: its inputs' sats but for the first ones, which its outputs take. |
| OrdinalTheory.CoinbaseLandsAt | src/index/updater.rs:571-620 | The index finds at offset k of coinbase output j the sat that stands k places behind what the earlier outputs take of the pool. |
| OrdinalTheory.MinedSatsLead | src/index/updater.rs:485-493 | Sat i of a block is at place i of its coinbase as long as the outputs reach, whatever the fees are. |
| RangeSearch.SearchEnds | src/index.rs:866-903 | When the search ends, what was found has the size of the range and covers every sat of it once. |
| IndexRuns.RunIsSound | src/index/updater.rs:45-222 | In every run of blocks, tip checks, commits with savepoints, rollbacks, failures and restarts, the ledgers that are open, committed and saved are those of indexing their own headers from the first block. |
| IndexRuns.CommittedIsComplete | src/index.rs:449-492 | So in every state of every run the committed entries partition exactly the sats mined below its height, and the rare-sat table is exact. |
| IndexRuns.CommittedFollowsTheory | bip.mediawiki:85-103 | In every state of every run the committed entries hold the sats that the BIP assigns along the committed headers. |
| IndexRuns.SavepointsStayPrefixes | src/index/reorg.rs:62-165 | Over a run all savepoints are prefixes of the committed chain exactly as long as none is left above it by a rollback. |
| IndexRuns.FollowsTheNode | src/index.rs:449-492 | As long as none is: in step the open ledger is that of the whole chain; after a fork with a savepoint below it the committed ledger is that of a prefix of the node's chain; else what is committed stays. |
| IndexRuns.InStepExtends | src/index/updater.rs:371-382 | A block in step is the next one of the indexed chain, so it is valid on the ledger. |
| IndexRuns.LastBlock | src/index/updater.rs:371-425 | The last block of a chain is valid on the ledger of the others. |
| IndexRuns.TakeBlock | src/index/updater.rs:371-425 | The index class takes the step of a block. |
| IndexRuns.TakeRestart | src/index.rs:449-470 | The index class takes the step of a restart or a failed update. |
| IndexRuns.TakeRollBack | src/index/reorg.rs:62-103 | The index class takes the step of a rollback. |
| IndexRuns.TakeCommit | src/index/updater.rs:765-829 | The index class takes the step of a commit, with its savepoint. |
| UpdateLoop.PrefixIsChain | src/index/updater.rs:224-300 | The first blocks of a chain are a chain. |
| UpdateLoop.Synced.constructor | src/index.rs:449-470 | An empty index is at the start of every run. |
| UpdateLoop.Synced.Restore | src/index/reorg.rs:62-103 | Headers and index are put back together to the highest savepoint at or below the fork; without one the update has failed. |
| UpdateLoop.Synced.Undo | src/index.rs:475-490 | What follows each verdict that is not in step: a rollback, or an error after which the write transaction is gone. |
| UpdateLoop.Synced.TakeOffer | src/index/updater.rs:371-425 | The next block of the chain it was fetched from is indexed if it is in step with the index, else the verdict is followed; a block that follows the index is in step. |
| UpdateLoop.Synced.TakeTip | src/index/updater.rs:56-85 | With no block to come, the tips are compared: in step only if the chains are one. |
| UpdateLoop.Synced.TakeCommit | src/index/updater.rs:765-829 | Headers, index and a due savepoint are committed together. |
| UpdateLoop.Synced.Turn | src/index/updater.rs:116-180 | One turn: a block, and a commit exactly when the interval is full or a savepoint is due. |
| UpdateLoop.Synced.TakeOffers | src/index/updater.rs:116-185 | The loop over the blocks; whatever turns keep, it keeps. |
| UpdateLoop.Arrives | src/index/updater.rs:116-185 | Against a node on one chain only the first block can fail, and if none does the index ends with the chain. |
| UpdateLoop.Synced.UpdateOnce | src/index/updater.rs:45-222 | One call of the updater is a run of the machine that leaves nothing uncommitted, however it ends; only its last turn can have been told to stop. |
| UpdateLoop.Synced.Update | src/index.rs:449-492 | The program's loop is a run of the machine. Against a node that stays on one chain, an update that comes through has all its blocks, and one that starts with savepoints on its own chain rolls back at most once. |
| UpdateLoop.Synced.HoldsTheTheory | src/index.rs:449-492 | After any of this a reader finds in every output the sats that the BIP assigns along the committed headers, in their order. |
| UpdateLoop.Synced.HoldsIsComplete | src/index.rs:449-492 | And every mined sat in exactly one place. |
| CoinSelection.PickIsBest | src/wallet/transaction_builder.rs:678-725 | The scan of a coin selection returns the first best candidate, and nothing exactly when every output is barred. |
| CoinSelection.BestIsClosest | src/wallet/transaction_builder.rs:660-664 | The best candidate is the closest one on the preferred side when there is one there, and the closest of all when there is none. |
| CoinSelection.PickByWorth | src/wallet/transaction_builder.rs:665-732 | Which output that is by its worth: the largest within the wanted value, or the smallest that reaches it, and the closest beyond or below if there is none. |
| CoinSelection.PadPlanReaches | src/wallet/transaction_builder.rs:297-313 | The coins taken for padding reach the dust limit, and would not without the last one. |
| CoinSelection.AddPlanCovers | src/wallet/transaction_builder.rs:337-364 | The coins taken to add value cover the deficit and the budgeted fee of every coin. |
| CoinSelection.PadPlanExactly | src/wallet/transaction_builder.rs:286-316 | Padding runs out of coins exactly when all candidates together do not reach the dust limit. |
| CoinSelection.AddPlanExactly | src/wallet/transaction_builder.rs:336-361 | Adding value runs out of coins exactly when all candidates together do not bring the deficit beyond the budgeted fee of each; taking the closest coin first misses nothing. |
| Bitcoin.DustLimits | src/wallet/transaction_builder.rs:1179-1195 | The dust limits of the usual scripts. |
| TransactionBuilder.LastBlockingIsLast | src/wallet/transaction_builder.rs:215-226 | The reported inscription is the last one that sending would drag along, and none is reported exactly when there is none. |
| BuildChecks.SpentOnce | src/wallet/transaction_builder.rs:508-516 | Distinct inputs with the outgoing outpoint among them spend it once. |
| BuildChecks.EndsWithRecipient | src/wallet/transaction_builder.rs:531-544 | The first output ending behind the outgoing sat is the recipient's, which starts there, exactly when that output is worth anything. |
| BuildChecks.PlacedExactly | src/wallet/transaction_builder.rs:569-616 | The loop over the outputs passes exactly when the recipient's output is within its bounds, for a payment that starts with the outgoing sat beside change only. |
| BuildChecks.CheckPlaces | src/wallet/transaction_builder.rs:569-616 | The loop computes that test. |
| BuildChecks.ActualFee | src/wallet/transaction_builder.rs:618-624 | Inputs minus outputs, nothing where the subtraction would be below zero. |
| BuildChecks.CheckDust | src/wallet/transaction_builder.rs:637-642 | The loop finds whether every output is above its dust limit. |
| TransactionBuilder.RoundedFeeIsMonotone | src/fee_rate.rs:28-33 | A fractional rate, rounded to the nearest sat, never charges less for more bytes, so it meets what the builder assumes of fees. |
| TransactionBuilder.OneMoreOutput | src/wallet/transaction_builder.rs:135-136 | An output to a script of at most 34 bytes stays within its budget of 43 virtual bytes. |
| TransactionBuilder.MoreInputs | src/wallet/transaction_builder.rs:135-136 | Below 253 inputs, k more inputs exceed their budget of 57 virtual bytes each by at most half a byte each, rounded up in all. |
| TransactionBuilder.Builder.constructor | src/wallet/transaction_builder.rs:140-168 | A new builder has all outputs of the wallet to choose from, both change addresses and nothing chosen. |
| TransactionBuilder.Builder.CalculateSatOffset | src/wallet/transaction_builder.rs:647-658 | How many sats the inputs bring in before the outgoing one. |
| TransactionBuilder.Builder.SelectCardinalUtxo | src/wallet/transaction_builder.rs:665-732 | Fails exactly when every available output is runic, locked or inscribed; else takes, of the others, the largest within the wanted value or the smallest that reaches it. |
| TransactionBuilder.Builder.SelectionByWorth | src/wallet/transaction_builder.rs:665-732 | The same of the selections that the verdict on a request is told with. |
| TransactionBuilder.Builder.SelectOutgoing | src/wallet/transaction_builder.rs:206-253 | Fails exactly for an inscription in the way, an unknown outpoint or an offset out of range, in this order; else the outgoing output is the only input and pays the recipient. |
| TransactionBuilder.Builder.AlignOutgoing | src/wallet/transaction_builder.rs:255-284 | The sats before the outgoing one go to a change address, and the recipient's output starts with it. |
| TransactionBuilder.Builder.PadAlignmentOutput | src/wallet/transaction_builder.rs:286-316 | The padding output is brought to the dust limit by coins in front, which keeps the outgoing sat at the start of the recipient's output; fails exactly when coins run out. |
| TransactionBuilder.Builder.AddCoin | src/wallet/transaction_builder.rs:336-361 | One turn of the loop: overflow, a missing or too small coin fail; else the coin is put behind the inputs and its benefit reduces the deficit. |
| TransactionBuilder.Builder.AddingCovers | src/wallet/transaction_builder.rs:318-364 | The coins added leave the recipient with its minimum, the estimated fee and the budget of every coin. |
| TransactionBuilder.Builder.AddValue | src/wallet/transaction_builder.rs:318-364 | Coins behind the inputs raise the recipient's output as planned; the end is success, overflow or too few coins, exactly as the plan says. |
| TransactionBuilder.Builder.PaddingExactly | src/wallet/transaction_builder.rs:286-316 | Padding a draft fails exactly when all coins that may be spent do not bring its first output to the dust limit. |
| TransactionBuilder.Builder.AddingExactly | src/wallet/transaction_builder.rs:318-364 | Adding value to a draft ends in an overflow, too few coins or success by the minimum, the fee and what all coins that may be spent bring. |
| TransactionBuilder.Builder.CoinsRunOut | src/wallet/transaction_builder.rs:170-364 | A request is answered with too few coins exactly when all of the wallet's that may be spent would together be too few. |
| TransactionBuilder.Builder.StripValue | src/wallet/transaction_builder.rs:366-416 | Value is stripped exactly when the excess is above the maximum and pays for an output of its own; the recipient then gets exactly the target. |
| TransactionBuilder.Builder.DeductFee | src/wallet/transaction_builder.rs:418-449 | The last output pays the fee; the program panics exactly when that would consume the outgoing sat or more than the output has. |
| TransactionBuilder.Builder.ExcessPaysFee | src/wallet/transaction_builder.rs:383-413 | The output for the excess has more than its dust limit left when the fee is paid. |
| TransactionBuilder.Builder.UnstrippedFinishes | src/wallet/transaction_builder.rs:418-449 | Without stripping, inputs minus outputs are the fee of the signed size, and the recipient's output follows as much as comes before the outgoing sat. |
| TransactionBuilder.Builder.StrippedFinishes | src/wallet/transaction_builder.rs:366-449 | The same with stripping, where the change pays the fee. |
| TransactionBuilder.Builder.MinimumNearlyKept | src/wallet/transaction_builder.rs:318-364 | At a whole rate, below 253 inputs, the recipient holds its minimum and the fee but for half the rate for each coin added, rounded up. |
| TransactionBuilder.Builder.Build | src/wallet/transaction_builder.rs:480-645 | The transaction is returned exactly when all the assertions hold, else the program panics. |
| TransactionBuilder.Builder.PassesExactly | src/wallet/transaction_builder.rs:496-642 | Of all the assertions only three can fail on what the stages leave: the recipient's output is worth something, it is within its bounds, and no output is dust. |
| TransactionBuilder.Builder.CompletesExactly | src/wallet/transaction_builder.rs:366-645 | Stripping, paying the fee and all assertions go through exactly when a condition on the amounts after `add_value` holds. |
| TransactionBuilder.Builder.Finish | src/wallet/transaction_builder.rs:366-645 | The last three stages return a transaction exactly then. |
| TransactionBuilder.Builder.BuildTransaction | src/wallet/transaction_builder.rs:170-204 | How every request ends - each error, each panic, or a transaction - told from the request alone, and which transaction it is. |
| TransactionBuilder.Builder.OrdinaryVerdict | src/wallet/transaction_builder.rs:170-204 | For change addresses of one kind, at any rate, once coins are found: a transaction is returned exactly when, with stripping, something is left for the recipient, and without, what is left is above dust, reaches the target value and is within the bound of the last assertions. |
| TransactionBuilder.Builder.ReturnedFinishes | src/wallet/transaction_builder.rs:170-204 | A returned transaction pays exactly the fee of its signed size, pays change only besides the recipient, and its recipient's output follows exactly what comes before the outgoing sat. |
| TransactionBuilder.Builder.ReturnedSpends | src/wallet/transaction_builder.rs:170-204 | Its inputs are distinct outputs of the wallet, the outgoing one among them; no other is locked, none is runic, and none has an inscription. |
| TransactionBuilder.Builder.RefusalIs | src/wallet/transaction_builder.rs:171-200 | Which requests are refused before the first stage, and with which error. |
| TransactionBuilder.Builder.ObstacleIs | src/wallet/transaction_builder.rs:228-242 | An outgoing output that is unknown, or smaller than the offset, is refused with its own error. |
| TransactionBuilder.Builder.RefusedForInscription | src/wallet/transaction_builder.rs:215-226 | A request is refused for another inscription exactly when one in the outgoing output, at another sat, lies less than a dust limit before the outgoing sat, or behind it. |
| TransactionBuilder.Builder.OthersLieBefore | src/wallet/transaction_builder.rs:206-284 | So in a returned transaction all others of that output lie at least a dust limit before the outgoing sat, and there is an output for them. |
| TransactionBuilder.Builder.ReturnedPads | src/wallet/transaction_builder.rs:255-284 | That output pays a change address all the sats before the outgoing one. |
| TransactionBuilder.Builder.StripsExactly | src/wallet/transaction_builder.rs:366-400 | When value is stripped, by the amounts of each target. |
| TransactionBuilder.Builder.PaidAmounts | src/wallet/transaction_builder.rs:395-449 | With stripping the recipient gets just what the target names and an unused change address the rest; without, the recipient pays the fee. |
| TransactionBuilder.Builder.ReturnedSettles | src/wallet/transaction_builder.rs:318-416 | With stripping the recipient gets exactly the target and the change is above dust; without, the minimum but for half the rate for each coin added. |
| TransactionBuilder.Builder.AddedComeLast | src/wallet/transaction_builder.rs:318-364 | The coins that raise the value come behind the outgoing output. |
| TransactionBuilder.Builder.ReturnedPasses | src/wallet/transaction_builder.rs:574-642 | No output of a returned transaction is dust, and the recipient's is within its bounds. |
| TransactionBuilder.Builder.StrippedReturnsUnlessEmpty | src/wallet/transaction_builder.rs:383-413 | A stripped request is answered exactly when something is left for the recipient and the padding is no dust. |
| TransactionBuilder.Builder.EmptyOnlyForData | src/wallet/transaction_builder.rs:383-413 | Only a data output with a target of zero leaves nothing. |
| TransactionBuilder.Builder.EmptyRequestStops | src/wallet/transaction_builder.rs:531-544 | With an excess to strip such a request panics. |
| TransactionBuilder.Builder.TooMuchByRounding | src/wallet/transaction_builder.rs:574-599 | Without stripping, a postage or value is above its bound by no more than one more output costs extra behind the transaction through rounding. |
| TransactionBuilder.Builder.OneSatTooMuch | src/wallet/transaction_builder.rs:574-599 | At any fractional rate, rounded to the nearest sat, that is a single sat. |
| TransactionBuilder.Builder.NeverTooMuch | src/wallet/transaction_builder.rs:574-599 | At a rate where splitting a transaction saves nothing, as at every whole rate, it is never above its bound. |
| TransactionBuilder.RoundingSavesOne | src/fee_rate.rs:28-33 | Rounded to the nearest sat, two parts cost at most one sat less than the whole. |
| TransactionBuilder.Builder.ShortOnlyWithCoins | src/wallet/transaction_builder.rs:318-364 | Without added coins the recipient holds the fee and its minimum. |
| TransactionBuilder.WholeRateIsOrdinary | src/fee_rate.rs:28-33 | A whole rate is monotone and does not rise faster than the size. |
| BuildWitnesses.PostageIsSent | src/wallet/transaction_builder.rs:170-204 | A request that gets its transaction. |
| BuildWitnesses.ExactPostageStops | src/wallet/transaction_builder.rs:581-586 | A panic: 484 sats above an exact postage are too few to strip and too many to leave. |
| BuildWitnesses.ValueStops | src/wallet/transaction_builder.rs:587-599 | A panic: a coin costs half a virtual byte more than planned, and one sat of the target value is missing. |
| BuildWitnesses.DustStops | src/wallet/transaction_builder.rs:637-642 | A panic: for the same reason the recipient's output is dust. |
| BuildWitnesses.EmptyOutputStops | src/wallet/transaction_builder.rs:531-544 | A panic: stripping leaves nothing for a data output, and the sat would go to the change. |
| BuildWitnesses.FeeStops | src/wallet/transaction_builder.rs:418-449 | A panic: at a rate of 330 the half byte that a coin costs more than planned is as much as the smallest postage, and the fee would consume the outgoing sat. |
| BuildWitnesses.RoundingStops | src/wallet/transaction_builder.rs:587-599 | A panic: at a rate of 1.01 a value is one sat above its bound and there is too little to strip. |
| BuildWitnesses.PaddingStops | src/wallet/transaction_builder.rs:637-642 | A panic: the padding is measured by the dust limit of the other change address. |
| SatDelivery.OffsetIsPosition | src/wallet/transaction_builder.rs:647-658 | The builder's offset is the position at which the index finds the outgoing sat among the spent ones. |
| SatDelivery.BuiltIsValid | src/wallet/transaction_builder.rs:170-204 | A built transaction with a new id is one the index accepts. |
| SatDelivery.LandsAt | src/index/updater.rs:701-755 | A sat that stands i places after everything the earlier outputs take lands at offset i of its output. |
| SatDelivery.OutgoingSatIsDelivered | src/wallet/transaction_builder.rs:531-544 | The index places the outgoing sat at offset 0 of the recipient's output exactly when that output is worth anything. |
| SatDelivery.ReturnedDelivers | src/wallet/transaction_builder.rs:170-204 | Every transaction that is returned is accepted by the index, which places the outgoing sat at offset 0 of the recipient's output. |
| SatDelivery.OthersGoBack | src/wallet/transaction_builder.rs:170-284 | The sat of every other inscription in the outgoing output goes back to the wallet: the index places it in the first output, which pays a change address, at least a dust limit before its end. |
| SatDelivery.BuildAndIndex | src/wallet/transaction_builder.rs:170-204 | The same of a run of the builder: it ends as the verdict says, and with a transaction only if the sat is delivered. |
| SatDelivery.EmptyOutputMissesTheSat | src/wallet/transaction_builder.rs:531-544 | What the assertion on the recipient prevents: with an empty output for the recipient the sat would land in the output behind it. |
| Merkle.OtsMerkleRoot | crates/lord-calendar/src/merkle.rs:13-29 | The loop over levels, which copies the last node of an odd level, computes the recursive root; nothing for no leaves. |
| Merkle.MerklePath | crates/lord-calendar/src/merkle.rs:72-98 | The loop computes the recursive path, nothing for an index out of range. |
| Merkle.BitcoinTxMerklePath | crates/lord-calendar/src/merkle.rs:40-69 | The loop that clamps an index instead of copying a node computes the same path. |
| Merkle.HashClampedPairs | crates/lord-calendar/src/merkle.rs:58-64 | Clamped pairs are the pairs of the completed level. |
| Merkle.PathLeadsToRoot | crates/lord-calendar/src/merkle.rs:72-98 | Folding any leaf with its path gives the root. |
| Merkle.OnlyTheLeafLeadsToRoot | crates/lord-calendar/src/merkle.rs:72-98 | With an injective pair hash, a digest and a path with the same turns lead to the root exactly when they are the leaf and its path. |
| Merkle.PathLength | crates/lord-calendar/src/merkle.rs:72-98 | Every path is as long as the tree is high. |
| Merkle.RootFromAbove | crates/lord-calendar/src/merkle.rs:13-29 | The root of a list of more than 2^k and at most 2^(k+1) leaves is the pair of the root of the first 2^k and that of the others, which, while it is lower, is paired with itself. |
| Merkle.RootsInjectiveAtOneLength | crates/lord-calendar/src/merkle.rs:13-29 | Among lists of one length, equal roots mean equal leaves. |
| Merkle.RootDeterminesLeaves | crates/lord-calendar/src/merkle.rs:13-29 | Lists of any lengths without duplicates, whose leaves are not hashes of pairs, have equal roots exactly when they are equal. |
| Merkle.OddListHidesItsCopy | crates/lord-calendar/src/merkle.rs:18-21 | With duplicates the root does not determine the leaves: repeating the last leaf of an odd list goes unnoticed. |
| OtsAttest.AggregateIsStrongest | crates/lord-commit/src/ots_attest.rs:103-144 | The chain of tests computes the first status of the highest rank. |
| OtsAttest.StrongestIsFirstOfHighest | crates/lord-commit/src/ots_attest.rs:103-144 | That status, by position: none ranks higher, and all before it rank lower. |
| OtsAttest.VerifyAggregatesOutcomes | crates/lord-commit/src/ots_attest.rs:59-101 | Verifying a tree of forks is aggregating once the outcomes of all executed paths from left to right. |
| OtsAttest.ConfirmingPathIsSeen | crates/lord-commit/src/ots_attest.rs:59-101 | A path that executes correctly to a matching Bitcoin attestation is reported, whatever its siblings are. |
| OtsAttest.LeftmostIsReported | crates/lord-commit/src/ots_attest.rs:59-101 | The reported height is that of the leftmost confirming path. |
| OtsAttest.ConfirmedExactlyByLeftmost | crates/lord-commit/src/ots_attest.rs:47-175 | A height is confirmed exactly when the leftmost confirming path confirms it. |
| OtsAttest.ConfirmedExactlyIfSomePathIs | crates/lord-commit/src/ots_attest.rs:47-175 | The verdict is a confirmation exactly when some path confirms: malformed branches hide nothing. |
| OtsAttest.PathIsHeard | crates/lord-commit/src/ots_attest.rs:59-144 | No path is overruled by one that counts less. |
| OtsAttest.VerdictHasPath | crates/lord-commit/src/ots_attest.rs:59-144 | The verdict is what some path comes to, the leftmost of those that count as much. |
| OtsAttest.VerdictExactly | crates/lord-commit/src/ots_attest.rs:47-175 | Each verdict by the ends of the paths: confirmed exactly if one confirms; else unknown exactly if one that executes correctly ends in an unrecognized attestation; else pending exactly if one ends in a calendar's promise; else failed exactly if one breaks off or is refuted; else unavailable exactly if the node could not tell; and without attestation exactly if there is no path. |
| OtsAttest.FailedForLeftmost | crates/lord-commit/src/ots_attest.rs:59-144 | A failure is reported with the reason of the leftmost path that fails. |
| OtsAttest.UnavailableForLeftmost | crates/lord-commit/src/ots_attest.rs:59-144 | And an unavailable node with that of the leftmost path it could not tell of. |
| OtsAttest.RecordedIsFirst | crates/lord-commit/src/ots.rs:602-612 | The height recorded for a proof is that of its first Bitcoin attestation from left to right, cut to 32 bits. |
| OtsAttest.ConfirmedHeightIsClaimed | crates/lord-commit/src/ots.rs:602-612 | The height of a confirmed proof is among its attestations, so one is recorded. |
| OtsAttest.NoRouteNoClaim | crates/lord-commit/src/ots.rs:602-612 | There is a first route to a Bitcoin attestation exactly when there is an attestation. |
| OtsAttest.RouteConfirmsFirst | crates/lord-commit/src/ots.rs:602-612 | What the first route confirms is the first attestation, and it fits 32 bits. |
| OtsAttest.FirstClaimIsReported | crates/lord-commit/src/ots_attest.rs:59-144 | If the route to the first Bitcoin attestation confirms a height, that height is the verdict, whatever the other branches are. |
| OtsAttest.FirstClaimDecides | crates/lord-commit/src/ots.rs:602-612 | Then the proof is confirmed, and the recorded height is the confirmed one. |
| OtsAttest.RecordedHeightOfConfirmed | crates/lord-commit/src/ots.rs:602-612 | Of a confirmed proof the recorded height is the confirmed one exactly when the first attestation holds, or does not hold but names a height equal to the confirmed one modulo 2^32. |
| OtsAttest.RecordedHeightMayDiffer | crates/lord-commit/src/ots.rs:602-612 | A proof can be confirmed at one height and recorded with another, that of an attestation that does not hold. |
| CalendarCustody.DrainPrioritizedSplits | crates/lord-calendar/src/queue.rs:47-59 | Draining splits the queue: no digest is dropped or doubled, and the batch is as large as allowed. |
| CalendarCustody.PreferredComeFirst | crates/lord-calendar/src/queue.rs:47-59 | A preferred digest is left behind only by a batch of preferred ones. |
| CalendarCustody.EventKeeps | crates/lord-calendar/src/anchor.rs:102-422 | Every event, with its save failing or not, keeps custody: what is held on disk stays held, proofs stay, a pending anchor is never overwritten, and the queue has no duplicates; the exceptions are a batch that would replace a different one and the installation of a snapshot that is out of date. |
| CalendarCustody.InstallKeepsExactly | crates/lord-calendar/src/anchor.rs:330-337 | Installing a snapshot read before keeps custody exactly when it still holds all that is on disk, with the same proofs and pending anchor. |
| CalendarCustody.ServiceInstallKeepsExactly | crates/lord-calendar/src/service.rs:138-145 | The same for a reload of the service: exactly when, besides, no pending anchor overwrites another, one that is only on disk has its batch queued, and the worker finds in the new memory what it is at work on. |
| CalendarCustody.StaleInstallLosesExactly | crates/lord-calendar/src/service.rs:122-145 | After installing a snapshot, the next save leaves exactly what the snapshot held and what was just submitted. |
| CalendarCustody.StaleInstallLoses | crates/lord-calendar/src/anchor.rs:330-337 | A run: a digest submitted and acknowledged between reading and installing is gone after the next save. |
| CalendarCustody.DrainLosesExactly | crates/lord-calendar/src/anchor.rs:200-205 | Storing a batch loses exactly those digests of the batch it replaces that nothing else holds. |
| CalendarCustody.RootedNeverClobbers | crates/lord-calendar/src/anchor.rs:199-204 | With an injective pair hash and no submitted digest that is the hash of two, a stored batch is never replaced by a different one. |
| CalendarCustody.RootedKept | crates/lord-calendar/src/anchor.rs:102-422 | Every event keeps the stored batches under their own roots. |
| CalendarCustody.RunKeeps | crates/lord-calendar/src/anchor.rs:102-422 | Custody over whole runs from any good state, if no snapshot is installed out of date. |
| CalendarCustody.AcknowledgedDigestsAreHeld | crates/lord-calendar/src/anchor.rs:102-422 | From an empty calendar, through any submissions, anchoring turns, failures and restarts in which no snapshot is installed out of date, every acknowledged digest is on disk. |
| CalendarCustody.HashOfAPairLosesThePair | crates/lord-calendar/src/anchor.rs:200-204 | Without the assumption it is false: a run in which a submitted digest is the hash of two stored ones ends with an acknowledged digest that is nowhere. |
| CalendarCustody.NotFoundOnlyWhilePending | crates/lord-calendar/src/service.rs:152-179 | A held digest is reported as not found exactly while only the pending anchor holds it. |
| CalendarProofs.SubmitDoes | crates/lord-calendar/src/service.rs:122-135 | A submitted digest goes to the end of the queue, unless it is queued or proved already, and nothing else changes but the disk. |
| CalendarProofs.DrainDoes | crates/lord-calendar/src/anchor.rs:162-212 | A drained batch is stored under its root and its digests leave the queue; nothing happens while an anchor is pending or nothing is queued. |
| CalendarProofs.PublishDoes | crates/lord-calendar/src/anchor.rs:310-325 | The published batch becomes the pending anchor, with its transaction, root and time, and is stored no more. |
| CalendarProofs.FinalizeDoes | crates/lord-calendar/src/anchor.rs:381-422 | Every digest of the confirmed batch gets the proof made for it, and no other digest's proof changes, in memory and, when saved, on disk. |
| CalendarProofs.RequeuedBehind | crates/lord-calendar/src/anchor.rs:353-379 | A batch that is given up goes behind the queue, its latest digest first. |
| CalendarProofs.RestorePendingDoes | crates/lord-calendar/src/anchor.rs:353-364 | An anchor that is given up leaves its digests behind the queue and nothing pending. |
| CalendarProofs.RestoreDrainedDoes | crates/lord-calendar/src/anchor.rs:366-379 | A batch that cannot be broadcast goes behind the queue and is stored no more. |
| CalendarProofs.FrontLeaves | crates/lord-calendar/src/queue.rs:41-44 | Without preferences a batch is the front of the queue. |
| CalendarProofs.EarlierLeavesFirst | crates/lord-calendar/src/queue.rs:47-59 | A digest that is not preferred leaves the queue only with every digest queued before it. |
| CalendarProofs.BatchIsInOrder | crates/lord-calendar/src/queue.rs:47-59 | A batch holds its preferred digests in the order of preference, and behind them others in the order of the queue. |
| CalendarProofs.AnsweredProofIsItsOwn | crates/lord-calendar/src/service.rs:152-179 | In every run, a proof that is handed out for a digest was made by some finalisation for this very digest. |
| CalendarProofs.AnswerExactly | crates/lord-calendar/src/service.rs:152-179 | Each answer by where the digest is: proved, else in a stored batch, else queued. |
| CalendarService.Calendar.constructor | crates/lord-calendar/src/service.rs:83-100 | Opening loads queue and store from disk. |
| CalendarService.Calendar.Enqueue | crates/lord-calendar/src/queue.rs:33-39 | A digest is queued once. |
| CalendarService.Calendar.DrainBatch | crates/lord-calendar/src/queue.rs:41-44 | Takes the front of the queue, up to the maximum. |
| CalendarService.Calendar.DrainBatchPrioritized | crates/lord-calendar/src/queue.rs:47-59 | The loop computes the specified drain. |
| CalendarService.Calendar.SubmitDigest | crates/lord-calendar/src/service.rs:122-135 | The event `Submit`; accepted exactly when the save succeeded or a proof exists. |
| CalendarService.Calendar.BeginReload | crates/lord-calendar/src/service.rs:138-140 | The event `ServiceLoad`: the snapshot is read without the lock. |
| CalendarService.Calendar.EndReload | crates/lord-calendar/src/service.rs:141-145 | The event `ServiceInstall`: the snapshot read before is installed, whatever was saved since. |
| CalendarService.Calendar.ReloadFromDisk | crates/lord-calendar/src/service.rs:138-145 | Both with nothing in between. |
| CalendarService.Calendar.RestartFromDisk | crates/lord-calendar/src/service.rs:83-100 | The event `Restart`. |
| CalendarService.Calendar.LoadState | crates/lord-calendar/src/anchor.rs:330-332 | The event `Load` of the worker. |
| CalendarService.Calendar.InstallState | crates/lord-calendar/src/anchor.rs:333-337 | The event `Install` of the worker. |
| CalendarService.Calendar.UpgradeDigest | crates/lord-calendar/src/service.rs:152-179 | Finds a proof, else a stored batch, else the queue, in this order. |
| CalendarService.Calendar.RestorePendingBatch | crates/lord-calendar/src/anchor.rs:353-364 | The event `RestorePending`. |
| CalendarService.Calendar.RestoreDrainedBatch | crates/lord-calendar/src/anchor.rs:366-379 | The event `RestoreDrained`. |
| CalendarService.Calendar.FinalizeAnchor | crates/lord-calendar/src/anchor.rs:381-422 | The event `Finalize`: a proof for every digest of the batch. |
| CalendarService.Calendar.RecordAnchorSkipped | crates/lord-calendar/src/anchor.rs:498-503 | The event `Skip`. |
| CalendarService.Calendar.StoreBatch | crates/lord-calendar/src/anchor.rs:162-212 | The event `Drain`: nothing while an anchor is pending or nothing is queued. |
| CalendarService.Calendar.PublishAnchor | crates/lord-calendar/src/anchor.rs:310-325 | The event `Publish`. |
| CalendarService.Calendar.AnchorOnce | crates/lord-calendar/src/anchor.rs:102-328 | A turn of the worker in which nothing else happens is a run of the machine from idle to idle. |
| CommitProtocol.CommitKeepsConsistent | crates/lord-commit/src/ots.rs:495-510 | A transaction and the publication of its proof keep every key equal to that of its published proof, in metadata and order table. |
| CommitProtocol.CommitRefusedExactlyIfTaken | crates/lord-storage/src/store.rs:195-218 | The transaction is refused exactly when the new key belongs to another commitment. |
| CommitProtocol.RollbackUndoesCommit | crates/lord-commit/src/ots.rs:720-736 | Rolling back a transaction that went through restores both tables exactly. |
| CommitProtocol.RollbackWithoutCommit | crates/lord-commit/src/ots.rs:304-331 | Rolling back a transaction that never went through restores both tables exactly when the new key was not taken; else it deletes the other commitment's order entry. |
| CommitProtocol.ImportKeeps | crates/lord-commit/src/ots.rs:1064-1134 | Importing keeps the log, adds at most one second-kind record for each commitment, and only with the commitment's own key. |
| CommitProtocol.ImportedSay | crates/lord-commit/src/ots.rs:1064-1134 | Every imported record says what some offered one says that holds: its root, key, height and transaction, with the path and time of the commitment. |
| CommitProtocol.ImportExactly | crates/lord-commit/src/ots.rs:1064-1134 | After an import a commitment has a record of the second kind exactly if it had one or an offered record holds for it. |
| CommitProtocol.ImportIsIdempotent | crates/lord-commit/src/ots.rs:1063-1134 | Importing the same records twice adds nothing the second time. |
| CommitStore.Commitments.AddCommitment | crates/lord-storage/src/store.rs:150-156 | A new commitment has no proof and no key. |
| CommitStore.Commitments.TimestampCommitment | crates/lord-commit/src/ots.rs:231-339 | Whole new state for every outcome: a repair only appends; a failure leaves metadata, order table and proofs as they were, exactly unless the new key was taken; success changes all of them together. |
| CommitStore.Commitments.WriteTimestamp | crates/lord-commit/src/ots.rs:290-331 | The order of writes and their rollback; the stores are consistent afterwards exactly unless the new key was taken. |
| CommitStore.Commitments.RollBack | crates/lord-commit/src/ots.rs:720-736 | The previous metadata and order entry are put back in one transaction. |
| CommitStore.Commitments.RepairFromMeta | crates/lord-commit/src/ots.rs:686-718 | Appends the record of the stored metadata and nothing else. |
| CommitStore.Commitments.UpgradeObstacleIs | crates/lord-commit/src/ots.rs:346-424 | Which upgrades fail before anything is written, and with which error. |
| CommitStore.Commitments.UpgradeCommitment | crates/lord-commit/src/ots.rs:346-481 | Whole new state for every outcome: before the proof is published a failure changes nothing, afterwards metadata, order table and proof agree. A record that is appended has the attested height, no transaction, and the path and stamp of the metadata. |
| CommitStore.Commitments.ReplaceProof | crates/lord-commit/src/ots.rs:426-464 | Key transaction, publication and rollback of an upgrade. |
| CommitStore.Commitments.MaybeAppendV2 | crates/lord-commit/src/ots.rs:614-658 | Appends a second-kind record exactly when the proof has an attested height and there is none yet: with this height, an empty transaction, and the key, path and stamp of the commitment. |
| CommitStore.Commitments.ImportInboundTails | crates/lord-commit/src/ots.rs:1064-1134 | The loop computes the specified import and counts what it adds; each new record is taken from an offered one with its root. |
| CommitStore.SameAnswerTwice | crates/lord-commit/src/ots.rs:290-331 | A run: two commitments get the same answer; the second is refused, and the first one's order entry is gone. |
| BrecciaLog.FramesRoundTrip | crates/lord-commit/src/breccia_log.rs:128-151 | Reading length-prefixed blobs gives back the blobs. |
| BrecciaLog.ReadFrom | crates/lord-commit/src/breccia_log.rs:128-151 | The reading loop: a torn length ends the log, a torn or overlong blob is an error. |
| BrecciaLog.Log.OpenOrCreate | crates/lord-commit/src/breccia_log.rs:35-77 | A new file has the first header version; an existing one is opened unchanged. |
| BrecciaLog.Log.Open | crates/lord-commit/src/breccia_log.rs:79-100 | A log of either version is accepted. |
| BrecciaLog.Log.EnsureV2Header | crates/lord-commit/src/breccia_log.rs:103-110 | Only the version in the header changes; the blobs stay. |
| BrecciaLog.Log.AppendBlob | crates/lord-commit/src/breccia_log.rs:112-126 | One more blob at the end, at the returned offset; an overlong one is refused and changes nothing. |
| BrecciaLog.Log.ReadAllBlobs | crates/lord-commit/src/breccia_log.rs:128-151 | Exactly the appended blobs, in order, after any appends, header changes and openings. |
| BrecciaLog.Log.ReadAll | crates/lord-commit/src/breccia_log.rs:49-54 | The same of a log that need not exist yet. |
| BrecciaLog.Layout | crates/lord-commit/src/breccia_log.rs:35-126 | The bytes of a log: magic and version, and each blob behind its length in eight bytes, in order. |
| BrecciaEntry.V2RoundTrip | crates/lord-commit/src/entry.rs:100-125 | Every record of the second kind decodes to itself. |
| BrecciaEntry.V1RoundTrip | crates/lord-commit/src/entry.rs:95-120 | A record of the first kind decodes to itself exactly when its root does not begin with the tag. |
| BrecciaEntry.V1Layout | crates/lord-commit/src/entry.rs:94-97 | The bytes of a record of the first kind, field by field. |
| BrecciaEntry.V2Layout | crates/lord-commit/src/entry.rs:99-104 | And of the second kind: a tag in front, height, transaction and replication behind. |
| BrecciaEntry.AllRoundTrip | crates/lord-commit/src/ots.rs:1041-1048 | A log of readable records reads back as these records, in order. |
| Reorg.DetectedDepthIsTheFork | src/index/reorg.rs:36-55 | The depth that is found marks the fork: up to it index and node agree everywhere, above it nowhere. |
| Reorg.DepthWithinHeight | src/index/reorg.rs:35-55 | With a common first block the depth never exceeds the height. |
| Reorg.DetectIsVerdict | src/index/reorg.rs:25-60 | There is exactly one verdict on a block, and searching upwards finds it. |
| Reorg.MaxDepthIs | src/index/reorg.rs:40-41 | The bound of the search, computed without products and remainders, is the program's formula. |
| Reorg.TenBlocksApart | src/index/reorg.rs:105-121 | With the default settings a savepoint is due after each of the first nine blocks and then ten blocks after the last one, while the node is at most 21 headers ahead. |
| Reorg.RestoredIsOnNodeChain | src/index/reorg.rs:62-103 | If the savepoints are prefixes of the indexed chain, the restored one is a prefix of the node's chain. |
| Reorg.StaleExactlyAboveRestored | src/index/reorg.rs:69-82 | After a rollback the savepoints are prefixes again exactly if none is above the restored one. |
| Reorg.StaleSavepointMisleads | src/index/reorg.rs:62-181 | A run from the empty index, two rollbacks apart, that ends on blocks that the node does not have: a savepoint left above the first rollback is chosen in the second. |
| Reorg.RecoverableExactly | src/index/reorg.rs:36-103 | Of an index that follows block by block, every fork that is called recoverable has a savepoint below it exactly unless the height is further into its interval than the index is past the last savepoint, by more than one. |
| Reorg.RecoverableWithoutSavepoint | src/index/reorg.rs:36-103 | A run from the empty index in which it is not: the node leaves three blocks, the verdict is recoverable at depth four, and there is no savepoint to return to. |
| Reorg.NineteenBlocks | src/settings.rs:496-497 | With the default settings it is so after 19 blocks, with savepoints after 9 and 19, for a fork eleven blocks below the top. |
| Reorg.HeaderIndex.DetectReorg | src/index/reorg.rs:25-60 | In step exactly if the block follows the last one; else the least depth below the maximum at which index and node agree, or unrecoverable when there is none. |
| Reorg.HeaderIndex.IndexBlock | src/index/updater.rs:371-425 | A block is appended exactly when it follows the last one, so the headers stay linked. |
| Reorg.HeaderIndex.LatestSavepoint | src/index/reorg.rs:168-181 | The highest savepoint not above the fork, nothing exactly when there is none. |
| Reorg.HeaderIndex.HandleReorg | src/index/reorg.rs:62-103 | The database becomes that savepoint; without one nothing changes. |
| Reorg.HeaderIndex.UpdateSavepoints | src/index/reorg.rs:105-165 | When one is due, a savepoint of the present database is added and the oldest dropped if there are enough; there are never more than the maximum. |
| Reorg.HeaderIndex.Follow | src/index.rs:449-492 | One look at the next block: it is indexed, or the index becomes a prefix of the node's chain, or nothing changes. |
| RangeCodec.PackingRoundTrips | src/index/entry.rs:66-83 | Eleven bytes give back the range exactly when its start has at most 51 bits and its length at most 37. |
| RangeCodec.StoredNumber | src/index/entry.rs:66-83 | The eleven bytes are the digits to the base 256 of start plus length times 2^51. |
| RangeCodec.UnpackPack | src/index/entry.rs:66-83 | A list of such ranges survives packing. |
| RangeCodec.MinedRangeFits | src/index/entry.rs:66-83 | Every range inside a block fits. |
| RangeCodec.IndexedRangesRoundTrip | src/index/updater.rs:744-753 | Every list of ranges the index holds after any run of valid blocks survives packing. |
| Varint.RoundTrip | crates/ordinals/src/varint.rs:3-29 | Every 128-bit number, whatever follows it, decodes to itself and its length. |
| Varint.EncodeAt | crates/ordinals/src/varint.rs:3-9 | Byte i is digit i of the number to the base 128, its high bit set unless it is the last. |
| Varint.EncodeIsShortest | crates/ordinals/src/varint.rs:3-9 | There are no more bytes than the number has digits. |
| Varint.EncodeToVec | crates/ordinals/src/varint.rs:3-9 | The loop appends the encoding. |
| Varint.DecodeBuffer | crates/ordinals/src/varint.rs:11-28 | The loop computes the decoding and fails for a number that does not end within 19 bytes. |
| UtxoEntry.EntryRoundTrip | src/index/utxo_entry.rs:24-55 | In all four configurations an entry parses back to its parts. |
| UtxoEntry.Layout | src/index/utxo_entry.rs:24-55 | The bytes of an entry in the four configurations. |
| UtxoEntry.SumValue | src/index/utxo_entry.rs:72-84 | The value of an entry is the total of its ranges. |
| UtxoEntry.MergedRangesFollow | src/index/utxo_entry.rs:164-185 | Merging puts the ranges of one entry behind those of the other and adds their totals. |
| UtxoEntry.StoredRangesRoundTrip | src/index/utxo_entry.rs:24-55 | The ranges of an output, packed, stored, parsed and unpacked, are its ranges. |
| UtxoEntry.ListRanges | src/index.rs:916-927 | Parsing an entry and loading its chunks lists the ranges of the output that was stored. |
| UtxoEntry.UtxoEntryBuf.PushValue | src/index/utxo_entry.rs:126-132 | Appends a value. |
| UtxoEntry.UtxoEntryBuf.PushSatRanges | src/index/utxo_entry.rs:134-143 | Appends the count of the ranges and the ranges. |
| UtxoEntry.UtxoEntryBuf.PushScriptPubkey | src/index/utxo_entry.rs:145-152 | Appends the length of the script and the script. |
| UtxoEntry.Empty | src/index/utxo_entry.rs:187-201 | An empty entry parses to no ranges or no value and an empty script. |
| UtxoEntry.Merged | src/index/utxo_entry.rs:164-185 | The merged entry parses to the merged parts. |
| Decimal.Format | src/decimal.rs:27-50 | The loop computes the specified text, and fails when the power of ten does not fit. |
| Decimal.PrintedIsShortest | src/decimal.rs:27-50 | What is printed has no superfluous zero in front or at the end, and a point only before digits. |
| Decimal.NormalizedKeepsNumber | src/decimal.rs:38-44 | Leaving out trailing zeros keeps the number. |
| Decimal.PrintedParsesToNormal | src/decimal.rs:27-89 | Every decimal whose power of ten fits is printed, and its text parses without overflow to its normal form. |
| Decimal.RoundTripExactlyIfNormal | src/decimal.rs:27-89 | Printing and parsing is the identity exactly on decimals in normal form. |
| Decimal.NormalFormConvertsAlike | src/decimal.rs:10-24 | A decimal and its normal form convert to the same integer whenever both do; the normal form fails alone only for a zero whose power of ten no longer fits. |
| Decimal.IntegerIsTheNumber | src/decimal.rs:10-24 | The integer counts the decimal's number in the smallest units; only digits beyond them are too precise. |
| Decimal.ParsedIsTheNumber | src/decimal.rs:52-81 | A text with a point that parses denotes digits before and after it, each perhaps behind a plus sign, and the result is the number they write: the second part counts in units of its whole length, the sign included. |
| Decimal.WholeIsTheNumber | src/decimal.rs:82-87 | A text without a point parses to the number of its digits. |
| Decimal.DropDigitsDivides | src/decimal.rs:70-76 | Leaving out digits is dividing by the power of ten. |
| Decimal.ParsedIsNormal | src/decimal.rs:52-81 | What is parsed is in normal form exactly unless the part after the point is a plus sign and zeros. |
| Decimal.PlusSignCounts | src/decimal.rs:70-76 | A plus sign after the point counts as a digit: `1.+0` parses to ten tenths, which is not in normal form. |

## Left out

- Network, RPC, LMDB and file mechanics: a database is a map with an atomic commit, a published file an atomic replacement, and what a node or calendar answers is a parameter. That a dead process loses its write transaction is assumed.
- The fetcher for inputs the index does not know, and the configuration without sat ranges and without addresses: the updater is modelled with both indexed. All four configurations are covered in `UtxoEntry`.
- Statistics, progress, timestamps and event counters of the updater, but for the count of lost sats and the block count.
- Sizes of machine integers in the updater and the builder: sats and amounts are unbounded naturals there, except where the source checks an addition. The total of all sats is below 2^51.
- Cached entries as bytes inside `SatIndex`: entries are values there, and `RangeCodec` and `UtxoEntry` prove that the byte forms give the same values back.
- The order of hash maps and of sets: iteration takes any element, and the wallet's outputs come in a given order.
- TransactionBuilder.RoundedFeeIsMonotone: speaks of rational rates, not of the `f64` product and its rounding. The builder's theorems need only that the fee is monotone, `NeverTooMuch` that splitting saves nothing; rounding of `f64` products is monotone, but that is not proved here.
- TransactionBuilder.Builder.OrdinaryVerdict: is about change addresses of one kind and of at most 34 bytes, as the wallet makes them; for any other request `Verdict` is the condition itself.
- Error values of an output of value zero: the reported maximum offset is then one below zero, where the program wraps or panics.
- TransactionBuilder.Builder.ReturnedSettles: holds the recipient to its minimum only up to half the rate for each added coin, because the program plans no more.
- Networks of addresses: whether a script has an address does not depend on the network.
- SatIndex.Index.IsCommon: answers for sats beyond the supply too, where the program would divide by zero; no range ever holds one.
- The length check of submitted digests and the wording of pending proofs; a failed read of the calendar's snapshot is a turn that does not load.
- Running without savepoints; there a reorganisation stops the program.
- UpdateLoop.Synced.Update: what the node answers is given beforehand, as a finite list of attempts; a loop that never ends because the node keeps changing its chain is not modelled.
- When commits come within a run of `IndexRuns`: they may come at any time, of which the program's schedule is a case.
- Staging files of proofs, which are removed again whatever happens, and the mempool of the log's distribution.
- CommitStore.Commitments.UpgradeCommitment: has no branch for an unchanged proof with a changed key, because a consistent store has none.
- Crash recovery of timestamping and upgrading, and torn writes in the log: the program handles failures within a running process only.
- A rollback whose own transaction fails: it is assumed to succeed.
- Building proofs from paths and transactions (`crates/lord-calendar/src/proof.rs`), and any claim that a batch is finally proved.
- What LMDB does when a savepoint of the same height exists already: the model replaces it.
- Reorg.HeaderIndex.UpdateSavepoints: takes the number of headers of the node as a parameter and is called with the present height.
- Text encoding: texts in log records are bytes with a given notion of validity, and decimals are sequences of characters.
- Settings, command line, server, templates, satscards, payment providers and market settlement: plumbing or thin checks.
