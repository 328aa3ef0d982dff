# A verified model of the Bitcoin-anchored subnet ledger

Every monitor of bitcoin-ipc replays Bitcoin transactions in block order and must reach
the same state. This project models the parts of the monitor in which that is hard, and
proves what they keep over every input, every step and every run.

| part | files | what is proved |
|---|---|---|
| Batch ledger | `Ledger*.dfy` | exactly which batches are accepted, the dry run refines the update, every record on the wire arrives as one message for its recipient, hash-map order does not matter, message nonces have no gap; over every run, supply and every subnet's holding are accounted for, exactly as long as nothing clamps, no subnet sends away more of a foreign token than it had, and exactly when a token can be registered again |
| Subnet lifecycle | `Subnet*.dfy`, `Committees.dfy` | over every run: an append-only stake log with a confirmed prefix, well-formed committees, checkpoint records in their slots and the committee in office in its row, kill votes that count once and mark exactly with more than two thirds of the power; exactly when each message is accepted and what it writes; exactly which runs end with linked records, exactly which end with every committee snapshot the replay of the log, and exactly when reading the records for a past height gives the committee in office then; exactly when the monitor panics |
| Weighted multisig | `Multisig*.dfy`, `Tapscript.dfy`, `Folding.dfy`, `Sorting.dfy` | the compiled script is satisfied by the finalized witness if and only if the signers hold more than two thirds of the power, under the rules of BIP 342 |
| Coin selection | `CoinSelection.dfy`, `SpendTransaction.dfy` | greedy selection is optimal, exactly which outputs are selected and swept, values balance to the satoshi, a kill checkpoint pays everything out |
| Rewards | `Reward*.dfy` | what the lazy tracker pays over every run, and that it is the minimum over all committees in office as long as no paid subnet's committee numbers break inside the snapshot |
| Push data | `PushData*.dfy` | printing and parsing are inverse, a printed script leaves one true element, and what the parser makes of any byte string |

`Listings.dfy` and `Outcomes.dfy` hold what the parts share. A message handler that
changes tables in place is a method of a class (`LedgerStore.Store`,
`SubnetStore.Store`, `SubnetStore.WorkingCommittee`, `RewardTracking.RewardTracker`);
loops of the source are loops here. Each is proved equal to a function of the old state,
and the theorems are about those functions.

## Reading the results

* Database tables are maps. Wherever the source iterates a table or a hash map, the model
  takes the order as an argument, and the theorems hold for every order.
* A multisig address is an injective function of the subnet, the sorted weighted keys and
  the threshold; `SubnetCommittee` equality compares addresses alone (src/db.rs:244-250).
* A refused message changes nothing, because rows are committed at the end of a handler.
* `SubnetCore.Core` holds after every run whose heights never fall. What can break is
  stated with its exact condition, for one step and for whole runs:
  * the links between records hold at the end of a run if and only if no accepted rotation
    went between committees of one address, and never come back
    (`SubnetHistory.ChainExactlyOverRuns`);
  * every committee snapshot is the replay of the log if and only if each accepted stake
    change was clean, leaving nothing or a unit of power, and made while the latest
    committee had the log's number; the latest committee replays the whole log if it has
    that number at the end (`SubnetRuns.ReplayExactlyOverRuns`). One accepted step breaks
    the replay if and only if it is an unclean unstake or drops a later waiting committee
    with the target's address (`SubnetRuns.StepReplayExactly`); a dropped committee can
    come back (`SubnetLimits.DroppedCommitteeReturns`).
* Reading the records for a past height needs neither condition: it gives the number then in
  office if and only if the last record up to that height named it, whatever came later
  (`SubnetHistory.HistoryIsAuthoritative`).
* The rewards are determined for every run (`RewardResults.SnapshotPays`). They are the
  minima over all committees in office if no paid subnet rotates between equal addresses
  inside the snapshot; what happened before it, or to other subnets, does not matter.
* The token ledger is accounted for on every run: bounds always, equality if and only if no
  balance was clamped at the 256-bit maximum, which cannot happen while what is issued fits.
* Fresh addresses and a minimum stake of 10,000 satoshi make every accepted message of a run
  benign, that is clean and neither dropping nor colliding (`SubnetRuns.UsuallyBenignRun`). `SubnetLimits` shows runs from creation in which a
  message that is not benign is accepted.
* A committee without power has no multisig script, and the source panics when asked for
  one (src/db.rs:176-184). The model has a refusal there, `NoPower`, and
  `SubnetPanics` says exactly which messages run into it.

Where the code differs from its documentation, the model follows the code:

* A batch writes the last checkpoint record, with the batch's transaction, into the slot
  after it (src/ipc_lib.rs:3039-3053). The record in its own slot therefore never carries a
  batch transaction, although its field is documented as "updated when confirmed"; the
  misplaced row is replaced by the next checkpoint. The chain is unharmed
  (`SubnetChain.BatchKeepsRecords`).
* docs/specs/dynamic-participation.md says that a rotation always increments the committee
  number. `rotate_to_committee` returns early when the addresses are equal
  (src/db.rs:488-490), which happens once a validator's power is capped: the record then
  names committee n+1 while the state stays at n (`SubnetLimits.CappedStakeBreaksChain`).
* A later waiting committee with the same address as the rotation target is dropped, so
  that its stake change is in no committee (`SubnetLimits.CappedStakeIsDropped`).
* With a minimum stake below 10,000 satoshi, an unstake can remove a validator that still
  has collateral; the log records only the amount withdrawn
  (`SubnetLimits.UnstakeLosesResidue`).
* A checkpoint is said to confirm what it applies. Rotating to the first of the two entries
  of a join puts the joined committee in office and leaves its deposit unconfirmed, and a
  later checkpoint that names the deposit does not rotate, because its number is already in
  office (`SubnetLimits.JoinHalfStaysUnconfirmed`). A rotation confirms everything up to its
  committee's number exactly when its target is not such a join half
  (`SubnetRotation.RotationConfirmsExactly`).
* Registrations "must be new tokens", but the test is for a positive home balance: a token
  can be registered again once all that its home issued or was sent has been destroyed or
  sent away, and its supply grows (`LedgerRegistrations.RegistrationPassesExactly`,
  `LedgerRegistrations.RegisteredTwice`).
* The reward tracker skips a checkpoint whose next committee number it has seen, a case its
  comment rules out. After a rotation between equal addresses it happens, and the tracker
  pays more than the minimum (`RewardLimits.SkippedRotationOverpays`).
* A kill checkpoint should have no change. Its change is looked up as the first output to the
  change address, so that a listed output to that address is taken for it
  (src/ipc_lib.rs:2095-2100); `SpendTransaction.KillExactly` says what then comes out.
* The multisig script needs one stack element per key and two more, so the stack limit of
  1000 elements makes committees of 999 and more members unspendable; the theorem says so
  on both sides (`MultisigProof.MultisigCorrect`).

## Model

| member | source | states |
|---|---|---|
| `LedgerRefinement.DryTransfersClosed` | src/ipc_lib.rs:2672-2696 | the transfer loop of the dry run accepts if and only if every amount is positive and each token's sum over the whole batch is affordable, and then each running balance has dropped by exactly that sum; the order of transfers is irrelevant |
| `LedgerRefinement.ApplyTransfersClosed` | src/ipc_lib.rs:3198-3258 | if each token's sum is affordable, no transfer underflows, the source keeps what it did not send away, and each destination gains what was sent to it up to the U256 clamp |
| `LedgerRefinement.DryRunRefinesApply` | src/ipc_lib.rs:2578-2699 | if the dry run accepts, the update succeeds, and each final source balance is the dry run's running balance plus the batch's transfers to itself |
| `LedgerRefinement.AcceptedBatch` | src/ipc_lib.rs:3088-3258 | every balance and every row after an accepted batch, in closed form over sums |
| `LedgerRefinement.SaveIsGatedByDryRun` | src/ipc_lib.rs:3004-3036 | a save succeeds if and only if the source subnet exists, has a last checkpoint whose row is there, and the dry run accepts |
| `LedgerAcceptance.DryRunAcceptsExactly` | src/ipc_lib.rs:2578-2699 | a batch passes if and only if no token is registered twice or held by its home already, every transfer is positive, and for each token burns plus transfers fit into what the source holds after registrations and mints |
| `LedgerAcceptance.BurnsPassExactly` | src/ipc_lib.rs:3160-3196 | burns go through if and only if the source holds the sum of each token's |
| `LedgerAcceptance.RefusedBecause` | src/ipc_lib.rs:2578-2699 | a refusal by the dry run names what is wrong with the batch |
| `LedgerAcceptance.SaveBatchExactly` | src/ipc_lib.rs:2997-3290 | a batch is saved if and only if its source is known, has a last checkpoint whose row is there, and the batch is acceptable; then every balance is given by the batch's sums, the checkpoint row is written one slot late, and no other subnet's rows change |
| `LedgerAcceptance.SaveFundExactly` | src/ipc_lib.rs:1163-1195 | a fund message is accepted if and only if its subnet is known and neither killed nor marked; it appends one message with its amount and recipient under the next nonce, and changes nothing else |
| `LedgerRegistrations.RegistrationsPassExactly` | src/ipc_lib.rs:2589-2616 | the registrations of a batch pass if and only if no address is repeated and the home subnet holds none of any of them |
| `LedgerRegistrations.RegistrationPassesExactly` | src/ipc_lib.rs:2589-2616 | over every run from an empty database: a token passes the check whenever issued plus received equals destroyed plus sent away at its home, and as long as nothing was clamped there only then |
| `LedgerRegistrations.RegisteredTwice` | src/ipc_lib.rs:2589-2616 | two accepted batches that register one token, after which its supply is the sum of both |
| `LedgerStore.SaveNeverUnderflows` | src/ipc_lib.rs:3136-3258 | the underflow errors of the update phase are unreachable |
| `LedgerConfluence.Confluence` | src/ipc_lib.rs:2841-3290 | for any two orders of the decoded destination groups and of the subnet table, from the wire to the database: both monitors refuse, or both end with the same balances and the same messages under the same nonces |
| `LedgerConfluence.SavesAgree` | src/ipc_lib.rs:3056-3274 | the same for the save alone, on any two decodings of one wire batch |
| `LedgerConfluence.DecodedSizes` | src/ipc_lib.rs:2870-2928 | two decodings have as many native and as many ERC transfers, so that the emptiness check and the announced count judge alike |
| `LedgerReceipt.DecodedNative` | src/ipc_lib.rs:2869-2905 | whatever the order of the groups, each native record for a known subnet becomes a fund of its amount for its recipient, in the order of its group, and records for unknown subnets are dropped |
| `LedgerReceipt.DecodedErc` | src/ipc_lib.rs:2907-2921 | each token record becomes a message with its token, amount and recipient for the destination of its group |
| `LedgerReceipt.ReceiptAppends` | src/ipc_lib.rs:2841-3290 | what an accepted batch appends to each subnet's list, in terms of the wire alone: payloads, nonces and origin |
| `LedgerReceipt.ReceiveExactly` | src/ipc_lib.rs:2841-3036 | a batch is received if and only if it holds something, its native records for known subnets are as many as announced, its source is known and has a checkpoint, and it is acceptable |
| `LedgerConfluence.PermutedBalances` | src/ipc_lib.rs:3198-3258 | two batches that differ in the order of transfers lead to the same balance table |
| `LedgerSupply.BatchConservesExactly` | src/ipc_lib.rs:3090-3258 | an accepted batch never raises a token's supply by more than registrations plus mints minus burns, and changes it by exactly that if and only if no clamp at the maximum is hit |
| `LedgerSupply.FittingSupplyNeverClamps` | src/ipc_lib.rs:3139-3165 | if supply plus registrations plus mints fits in 256 bits, no clamp is hit |
| `LedgerSupply.Firewall` | src/ipc_lib.rs:2598-2615 | a batch from one subnet never raises the supply of another subnet's token, leaves it unchanged if and only if no destination is pushed past 256 bits, and never lowers a balance that another subnet holds |
| `LedgerClamp.ForeignTransferLosesSupply` | src/ipc_lib.rs:3198-3258 | three accepted batches after which a foreign transfer has lost supply to the clamp |
| `LedgerRuns.SupplyOverRuns` | src/ipc_lib.rs:3090-3258 | over every run a token's supply is at most the initial one plus all issued minus all burned, and exactly that if and only if no accepted batch clamps |
| `LedgerRuns.FittingRunNeverClamps` | src/ipc_lib.rs:3139-3165 | a run whose supply and issuance fit 256 bits never clamps |
| `LedgerRuns.HoldingOverRuns` | src/ipc_lib.rs:3088-3258 | over every run, what any subnet holds of any token is at most what it held and was sent minus what it sent away, plus at the home what was issued minus burned, and exactly that if and only if no credit to it was clamped |
| `LedgerRuns.FirewallOverRuns` | src/ipc_lib.rs:3198-3258 | over every run, a subnet never sends away more of a foreign token than it had and was sent, and holds at most the difference, exactly if and only if no credit to it was clamped |
| `LedgerMessages.DeliverAllAppends` | src/db.rs:1397-1465 | delivering messages appends to each subnet's list exactly those addressed to it, under consecutive nonces |
| `LedgerMessages.BatchAddressed` | src/ipc_lib.rs:3056-3129 | a batch sends subnet d one message per native transfer to d, one per ERC transfer to d, and one per registration if d is a known other subnet, in that order |
| `LedgerRuns.BatchAppends` | src/ipc_lib.rs:3198-3274 | an accepted batch appends exactly those messages to each subnet's list |
| `LedgerRuns.GapFreeOverRuns` | src/ipc_lib.rs:1183-1190 | over every run the nonces of each subnet are 0..n-1 and the earlier list is a prefix of the later one, so that no message is ever overwritten |
| `LedgerRuns.ReachableLedgers` | src/ipc_lib.rs:2997-3290 | from an empty database: nonces without gap, and supply at most issued minus burned, with equality if and only if nothing clamped |
| `LedgerStore.ValidateErcBatch` | src/ipc_lib.rs:2578-2699 | the loops over the scratch map compute the dry run |
| `LedgerStore.Store.SaveBatchTransfer` | src/ipc_lib.rs:2997-3290 | the handler writes exactly the specified balances, messages and checkpoint row, or reports the specified error and writes nothing |
| `LedgerStore.Store.SaveFundMessage` | src/ipc_lib.rs:1163-1195 | a fund message appends one message, or is refused for an unknown, killed or marked subnet |
| `Multisig.SortKeysOrderFree` | src/multisig.rs:23-27 | the sorted keys do not depend on the order in which distinct keys were given |
| `Multisig.SortKeysAscending` | src/multisig.rs:23-27 | the keys ascend, and every key keeps its power |
| `MultisigProof.FinalizeWitness` | src/multisig.rs:661-717 | the loop builds one element per key in reverse sorted order, empty for a key that did not sign |
| `MultisigProof.MultisigCorrect` | src/multisig.rs:29-67 | running the compiled script on that witness leaves exactly one true element if and only if there are at most 998 keys, every signature is valid and the signers' power reaches the threshold; the signature budget never runs out |
| `MultisigProof.MultisigOrderFree` | src/multisig.rs:23-67 | script and witness do not depend on the order of the keys |
| `Committees.QuorumOverlap` | src/multisig.rs:118-124 | any two sets of validators that hold more than two thirds of the power share more than a third of it |
| `Committees.Threshold` | src/multisig.rs:118-124 | the threshold is the least whole number above two thirds of the total power |
| `Committees.CollateralToPower` | src/multisig.rs:141-157 | power exists if and only if the collateral is at least the minimum, and is one unit per 10,000 satoshi, rounded down, of at most 2^32 - 1 satoshi |
| `Committees.SpendsExactly` | src/multisig.rs:29-67 | every well-formed committee has a script, and the finalized witness spends it if and only if there are at most 998 members, every collected signature of a member is valid, and three times the signers' power exceeds twice the total |
| `Committees.EveryoneSpends` | src/multisig.rs:29-67 | valid signatures of all members always spend, for up to 998 members |
| `Committees.SameAddressExactly` | src/db.rs:167-228 | two committees share an address if and only if they belong to one subnet and have the same members with the same powers |
| `Committees.TwoSpendsOverlap` | src/multisig.rs:661-717 | two spends from one committee, of the same transaction or of different ones, always share signers holding more than a third of its power |
| `Committees.NoOverflow` | src/multisig.rs:118-157 | with at most 5000 members neither the doubling of the total power nor a script number overflows, and the threshold can be met |
| `Committees.AddressNeedsPower` | src/db.rs:167-228 | a committee has an address if and only if it has power |
| `Committees.ChangesKeepWellFormed` | src/db.rs:300-365 | joining, modifying and removing keep keys distinct, collateral at the minimum, power and threshold consistent |
| `Committees.EveryMemberHasPower` | src/multisig.rs:141-157 | with a minimum stake of one unit every member has power |
| `SubnetStore.WorkingCommittee.JoinNew` | src/db.rs:301-317 | the in-place join gives the specified committee or error |
| `SubnetStore.WorkingCommittee.Modify` | src/db.rs:319-345 | the in-place modification gives the specified committee or error |
| `SubnetStore.WorkingCommittee.Remove` | src/db.rs:347-364 | the in-place removal gives the specified committee or error |
| `SubnetLog.ConfirmOk` | src/db.rs:1666-1711 | confirming keeps the numbering 1..n, the confirmed prefix and heights that never fall along the log |
| `SubnetLog.ConfirmExactly` | src/db.rs:1666-1711 | a confirmation is never rewritten, and afterwards exactly the entries up to the given number and those confirmed before are confirmed |
| `SubnetStore.ConfirmStakeChanges` | src/db.rs:1666-1711 | whatever the order of the rows, the loop confirms exactly the pending entries, collects them, and returns the largest newly confirmed number |
| `SubnetStore.LastConfirmedOrderFree` | src/db.rs:1692-1701 | the last confirmed number is the same for any two orders of the rows |
| `SubnetSteps.JoinKeeps` | src/ipc_lib.rs:715-790 | a join, before or after bootstrap, keeps the numbered log, the replay and well-formed committees |
| `SubnetSteps.StakeKeeps` | src/ipc_lib.rs:3523-3609 | so does staking |
| `SubnetSteps.UnstakeKeepsExactly` | src/ipc_lib.rs:4063-4180 | unstaking keeps the replay if and only if it leaves nothing or at least one unit of power |
| `SubnetSteps.MinStakeMakesClean` | src/ipc_lib.rs:3732-3750 | with a minimum stake of one unit every accepted unstake does |
| `SubnetCore.StepKeepsCore` | src/ipc_lib.rs:2421-2555 | every message, accepted or not, keeps the numbered log with its confirmed prefix, well-formed committees, record k in slot k naming a stored committee, the committee in office in its row, kill requests apart and the mark |
| `SubnetCore.RunsKeepCore` | src/db.rs:1628-1711 | over every run whose heights never fall, the same, and no entry is overwritten and no confirmation rewritten |
| `SubnetCore.EveryReachableSubnet` | src/ipc_lib.rs:673-826 | from creation, after any run and any continuation of it |
| `SubnetChain.CheckpointKeepsTables` | src/ipc_lib.rs:2433-2555 | every checkpoint, whatever it rotates to, leaves slot k with record k, numbers that rise by 0 or 1, named committees stored and the committee in office in its row |
| `SubnetChain.CheckpointKeepsLinksExactly` | src/ipc_lib.rs:2433-2555 | a checkpoint keeps the records linked if and only if it does not rotate to a committee with the address of the current one |
| `SubnetRotation.CheckpointKeepsReplayCore` | src/ipc_lib.rs:2433-2555 | every checkpoint, whatever it rotates to, leaves every snapshot the replay of the log up to its number |
| `SubnetRotation.CheckpointReplayExactly` | src/db.rs:480-502 | a checkpoint keeps the latest committee the replay of the whole log if and only if it drops no later waiting committee with the target's address |
| `SubnetRotation.CheckpointKeepsExactly` | src/ipc_lib.rs:2421-2555 | a checkpoint keeps the replay and the chain if and only if its rotation target is told apart by its address |
| `SubnetRotation.RotationConfirmsExactly` | src/ipc_lib.rs:2539-2555 | after a rotation to another address every entry up to the new committee's number is confirmed if and only if the target is not the first half of a join with its deposit pending |
| `SubnetRotation.CheckpointOffice` | src/ipc_lib.rs:2539-2555 | entries below the number of the committee in office are confirmed and entries above it are not; the entry of that number is, unless it is the deposit of a join rotated to by its first half |
| `SubnetRotation.CheckpointNames` | src/ipc_lib.rs:2477-2495 | each record's configuration number is that of the committee it names, or one below for the first half of a join |
| `SubnetChain.BatchKeepsRecords` | src/ipc_lib.rs:3039-3053 | in every state, the row a batch writes lies beyond the records: slots, table and links are what they were |
| `SubnetRuns.StepKeepsExactly` | src/ipc_lib.rs:2421-2555 | an accepted message of any kind keeps the whole invariant if and only if it is benign |
| `SubnetRuns.UsuallyBenign` | src/db.rs:244-250 | with fresh addresses and a minimum stake of one unit every accepted message is benign |
| `SubnetRuns.UsuallyBenignRun` | src/db.rs:244-250 | the same for whole runs |
| `SubnetRuns.StepReplayExactly` | src/ipc_lib.rs:3551-3609 | an accepted message of any kind keeps the replay if and only if it drops no committee and is not an unclean unstake; collisions do no harm |
| `SubnetRuns.ReplayExactlyOverRuns` | src/ipc_lib.rs:715-790 | at the end of any run every snapshot replays the log if and only if every accepted stake change was clean and made while the latest committee was not behind, and the latest one replays the whole log if and only if, besides, it is not behind |
| `SubnetRuns.ReachableSubnets` | src/ipc_lib.rs:673-826 | from creation, for every run: the core, and exactly when chain, replay and the whole invariant hold |
| `SubnetRuns.ResidueDamages` | src/ipc_lib.rs:4094-4180 | an unstake that leaves a residue without power logs a snapshot that the log does not replay to |
| `SubnetRuns.LateChangeDamages` | src/ipc_lib.rs:3551-3609 | a stake change made while the latest committee is behind logs a snapshot under a wrong number |
| `SubnetRuns.DamagedForever` | src/db.rs:1654-1711 | such an entry is never made good |
| `SubnetRuns.InvExactlyOverRuns` | src/ipc_lib.rs:2421-2555 | at the end of any run the whole invariant holds if and only if no accepted message collided, every stake change was timely, and the latest committee is not behind |
| `SubnetRuns.LatestIsReplayOfLog` | src/db.rs:300-365 | from creation, over runs of timely messages, collisions included: the committee in office and every snapshot in log and table have the collateral that the log gives up to their number, and the latest one that of the whole log as soon as it has its number |
| `SubnetHistory.StepKeepsChainExactly` | src/ipc_lib.rs:2433-2555 | an accepted message of any kind keeps the chain if and only if it is not a rotation between equal addresses |
| `SubnetHistory.ChainExactlyOverRuns` | src/ipc_lib.rs:2433-2555 | at the end of any run the chain holds if and only if no accepted message was one: records 0..last are numbered, linked and lead to the committee in office |
| `SubnetHistory.HistoryIsAuthoritative` | docs/specs/dynamic-participation.md:204-225 | reading the records for height h, at any later time and whatever came later, gives the committee number then in office if and only if the last record up to h named it, and then the committee then in office |
| `SubnetHistory.HistoryFromCreation` | docs/specs/dynamic-participation.md:204-225 | the same from creation; a run without collisions always meets the condition |
| `SubnetLimits.OrdinaryRun` | src/ipc_lib.rs:2421-2555 | bootstrap, a stake and a rotating checkpoint form a benign run that puts the waiting committee in office as committee 2 |
| `SubnetLimits.CappedStakeBreaksChain` | src/db.rs:480-502 | a run from creation whose last message is accepted and not benign: the record names committee 2 and the state stays at committee 1 |
| `SubnetLimits.CappedStakeIsDropped` | src/db.rs:492-498 | a run from creation whose last message is accepted and not benign: the latest committee is older than the log |
| `SubnetLimits.DroppedCommitteeReturns` | src/db.rs:480-502 | a run in which a dropped committee comes into office later, through a rotation to its own entry, and the whole invariant holds again |
| `SubnetLimits.JoinHalfStaysUnconfirmed` | src/ipc_lib.rs:2436-2475 | a benign run that ends with a committee in office whose last change is unconfirmed |
| `SubnetLimits.UnstakeLosesResidue` | src/ipc_lib.rs:4094-4180 | a run from creation whose last message is accepted and not benign: the replay of the log has a validator that the committee lacks |
| `SubnetLimits.LastUnstakePanics` | src/db.rs:176-184 | a run from creation after which the only validator's unstake panics |
| `SubnetPanics.PanicsExactly` | src/db.rs:176-184 | a message panics if and only if it passes every check and the committee it leads to has no power; otherwise passing the checks means acceptance |
| `SubnetPanics.OnlyTheLastMemberPanics` | src/db.rs:176-184 | in every reachable subnet with a minimum stake of one unit, that is exactly the last member of the latest committee unstaking all it has |
| `SubnetAcceptance.GenesisJoinExactly` | src/ipc_lib.rs:673-826 | before bootstrap: a join is accepted if and only if its collateral is positive and at least the minimum, its key is whitelisted and has not joined, and there is power if it bootstraps; it registers the validator, and bootstraps committee 1 when enough have joined, counted modulo 2^16 |
| `SubnetAcceptance.JoinExactly` | src/ipc_lib.rs:673-790 | after bootstrap: a join is accepted if and only if its collateral is positive and at least the minimum, the subnet is not killed or marked, and its key is in neither committee; it appends the validator and logs the key and its deposit |
| `SubnetAcceptance.StakeExactly` | src/ipc_lib.rs:3523-3609 | a stake is accepted if and only if it is positive and enough, the subnet is not killed or marked, and its key is a member that ends up with the minimum; that member alone changes, and one deposit is logged |
| `SubnetAcceptance.UnstakeExactly` | src/ipc_lib.rs:4063-4180 | an unstake is accepted if and only if it is positive, the subnet is not killed or marked, its key is a member that has the amount and keeps nothing or the minimum, the committee in office has the amount, and power is left; that member is lowered, or removed when it has no power left, and one withdrawal is logged |
| `SubnetAcceptance.CheckpointExactly` | src/ipc_lib.rs:2421-2555 | a checkpoint is accepted if and only if the subnet is bootstrapped and the configuration it names is none, the one in office, or a later one in the log, also while the subnet is marked or killed; and every row that it writes |
| `SubnetAcceptance.BatchExactly` | src/ipc_lib.rs:3004-3053 | the batch row is written if and only if the last checkpoint's record is there, and holds that record with the batch's transaction in the slot after it |
| `SubnetAcceptance.RefusedBecause` | src/ipc_lib.rs:673-826 | a refusal of any message names what is wrong with it |
| `SubnetAcceptance.MarkedStaysClosed` | src/ipc_lib.rs:1163-1195 | once marked, a subnet refuses every join, stake, unstake and fund message after any further run |
| `SubnetKill.VotesCountOnce` | src/ipc_lib.rs:4576-4621 | in any listing of the request table, an accepted vote's tally is the power of the set of validators that voted in the window, and so at most the total |
| `SubnetKill.KillKeepsRequests` | src/db.rs:1713-1748 | two stored requests of one validator stay more than 36 blocks apart |
| `SubnetKill.VoteAcceptedExactly` | src/ipc_lib.rs:4532-4598 | a vote is accepted if and only if the subnet is bootstrapped, the voter is a member of the latest committee, and no request of its own is at most 36 blocks old; the requests of others do not matter |
| `SubnetKill.KillMarksExactly` | src/ipc_lib.rs:4600-4654 | an accepted vote stores its request and marks the subnet if and only if it was not marked and the members of the latest committee that voted within the last 36 blocks, the new one among them, hold more than two thirds of its power; nothing else changes |
| `SubnetVotes.VotesMark` | src/ipc_lib.rs:4532-4660 | in every reachable state, members who vote one after the other within 36 blocks mark the subnet if they hold more than two thirds of the power, and only then if nobody else's request counts |
| `SubnetKill.KillMovesForward` | src/ipc_lib.rs:2513-2530 | the kill state never moves back, whatever the message |
| `SubnetKill.MarkedRunsFrozen` | src/ipc_lib.rs:3319-3324 | once a subnet is marked, no run adds to its stake log |
| `SubnetKill.ShouldKillCounts` | src/db.rs:524-536 | `should_kill` holds if and only if the subnet is marked and at least five checkpoints were recorded since, and its subtraction never goes below zero |
| `SubnetKill.KillDelay` | src/db.rs:516-536 | over every run that follows the marking vote, `should_kill` holds exactly when the run has recorded that many checkpoints and none was a kill checkpoint |
| `SubnetStore.Store.SaveJoin` | src/ipc_lib.rs:673-826 | the handler writes exactly the specified rows, or reports the specified error and writes nothing |
| `SubnetStore.Store.SaveStake` | src/ipc_lib.rs:3523-3609 | the waiting committee and one deposit entry as specified, or the specified error and nothing |
| `SubnetStore.Store.SaveUnstake` | src/ipc_lib.rs:4063-4180 | the waiting committee, modified or without the validator, and one withdrawal entry as specified, or the specified error and nothing |
| `SubnetStore.Store.SaveCheckpoint` | src/ipc_lib.rs:2421-2555 | state, record, committee row and confirmations as specified for any order of the stake-change rows, or the specified error and nothing |
| `SubnetStore.Store.RotateTo` | src/db.rs:480-502 | the rotation in place: nothing on equal addresses, otherwise the new committee, the next number, and a waiting committee of the same address cleared |
| `SubnetStore.Store.SaveBatchTxid` | src/ipc_lib.rs:3004-3053 | the checkpoint row that a batch writes, in the slot after the last, or the specified error and nothing |
| `SubnetStore.Store.SaveKill` | src/ipc_lib.rs:4532-4660 | the request row and the mark as specified for any order of the request rows, or the specified error and nothing; the specification is characterised by `SubnetKill.VoteAcceptedExactly` and `SubnetKill.KillMarksExactly` |
| `SubnetStore.TallyVotes` | src/ipc_lib.rs:4600-4611 | the loop adds up the power of the requests' validators |
| `SubnetStore.GetValidRequests` | src/db.rs:1725-1748 | the loop collects the requests that are still valid |
| `CoinSelection.GreedyIsOptimal` | src/multisig.rs:223-262 | phase 1 finds a covering choice with the fewest inputs of all covering choices, and finds none only if there is none |
| `CoinSelection.SelectAccounts` | src/multisig.rs:204-322 | selection fails if and only if no choice covers the target and its own fee; on success inputs are among the given ones, the fee is at least the required one and exceeds it by at most dust, change is above dust, and consolidation adds at most its limit |
| `CoinSelection.SelectExactly` | src/multisig.rs:204-322 | the result is the one selection that consists of the shortest beginning of the ordered wallet that pays the target and its own fee, and then the smallest outputs left, smallest first, each leaving at least dust, up to the limit, the end of the wallet, or the first that would not; its change is what is left if that is more than dust; there is one whenever any choice pays |
| `CoinSelection.SelectOrderFree` | src/multisig.rs:223-230 | the selection does not depend on the order of the list |
| `CoinSelection.NoDoubleSpend` | src/multisig.rs:223-263 | distinct outpoints stay distinct in the selection |
| `CoinSelection.SelectCoins` | src/multisig.rs:204-322 | the loops compute the selection that `CoinSelection.SelectExactly` characterises |
| `SpendTransaction.SpendAccounts` | src/multisig.rs:348-503 | the listed outputs come first and unchanged, at most one change output above dust follows, and inputs minus outputs is the due fee or at most dust more |
| `SpendTransaction.SpendExactly` | src/multisig.rs:348-503 | exactly which transaction is built, if any: the whole wallet or the selection made for the listed outputs, in order, and the change last if it is more than dust |
| `SpendTransaction.SpendRefused` | src/multisig.rs:348-503 | a refusal names what is wrong: no outputs to spend, too little for the listed outputs, too little for the fee, or no choice that pays |
| `SpendTransaction.SpendOrderFree` | src/multisig.rs:348-453 | the transaction does not depend on the order of the list |
| `SpendTransaction.KillPaysOut` | src/ipc_lib.rs:2095-2177 | a kill checkpoint spends every output; it has no change output if and only if at most dust was left or there is a positive unstake to share with; then each unstake output gains its own share, the last one what the others leave of the change, and the fee is unchanged; it fails exactly when the first pass does or the rounded shares exceed the change |
| `SpendTransaction.KillExactly` | src/ipc_lib.rs:2095-2177 | for any outputs, those to the change address included: the first output to that address is shared out as the change, the checkpoint succeeds if and only if the rounded shares fit and that value is no more than was left, and exactly which outputs it then has |
| `SpendTransaction.ChangeFoundExactly` | src/ipc_lib.rs:2095-2100 | the change is the value of the first output to the change address, and zero if there is none |
| `SpendTransaction.ExactSharesFit` | src/ipc_lib.rs:2117-2141 | with proportions computed exactly and rounded down the shares always fit, and the last unstake gets its proportion and at most one satoshi more for each of the others |
| `SpendTransaction.DistributeChange` | src/ipc_lib.rs:2117-2141 | the loop over the unstake outputs gives each its share and the last one the rest |
| `Rewards.SnapshotsTile` | src/rewards.rs:174-197 | a height lies in exactly the snapshot whose boundaries enclose it, and the next snapshot starts right after |
| `RewardMinima.MinOverIsMinimum` | src/rewards.rs:395-411 | the running minimum of a key is the amount that every committee's member with that key has at least, and one has exactly; there is none unless the key is a member of every committee with positive collateral |
| `RewardMinima.PositiveExactly` | src/rewards.rs:395-403 | a key's entry is its own member's collateral, if that is positive |
| `RewardMinima.LoweredLookup` | src/rewards.rs:395-411 | lowering takes, key by key, the smaller of the two amounts and drops a key that is missing |
| `RewardMinima.GatherAt` | src/rewards.rs:299-314 | the accumulated rewards of a key are the sum of the candidates' amounts for it |
| `RewardMinima.GatherSum` | src/rewards.rs:304-317 | the total of the result is the sum of all candidates' amounts |
| `RewardResults.FinishedTotal` | src/rewards.rs:304-317 | the total is the sum of all minima of the paid subnets |
| `RewardResults.ActiveNowExactly` | src/rewards.rs:15-49 | for a hook that runs in the present, the active subnets are those bootstrapped and not killed |
| `RewardRuns.ActiveInPast` | src/rewards.rs:15-49 | asked for at any later time, the active subnets between two heights are those created and bootstrapped by the first and not killed by the last |
| `RewardSnapshots.RowRun` | src/rewards.rs:337-419 | over any run inside a snapshot, collisions included, a candidate's row stands for the minima over the opening committee and the committees of the records whose number it had not seen, until it is killed |
| `RewardOffices.CountedMinima` | src/rewards.rs:376-416 | if the subnet does not rotate between equal addresses, these are the minima over all committees in office |
| `RewardResults.SnapshotPays` | src/rewards.rs:260-332 | for every run and snapshot length: the stored result pays each key the sum, over subnets bootstrapped by the first block and not killed by the end, of the least collateral that its members have over what the tracker counts, and the total is the sum of all these; the hook cannot fail |
| `RewardResults.LazyEqualsEager` | src/rewards.rs:260-332 | if no paid subnet rotates between equal addresses inside the snapshot, that is the least collateral that the key's members have over all committees in office since the first block |
| `RewardResults.RewardsOverRuns` | src/rewards.rs:236-451 | both from an empty database, after any run that leads up to the snapshot, collisions included |
| `RewardResults.HooksNeverFail` | src/rewards.rs:337-419 | after any run inside a snapshot, the hook of the next checkpoint finds every row it reads and does not fail |
| `RewardLimits.SkippedRotationOverpays` | src/rewards.rs:376-380 | a run with a rotation between equal addresses, after which the next rotation is skipped and the result pays more than the least collateral in office |
| `RewardLimits.RichWorldReached` | src/rewards.rs:260-332 | the state that run starts from is reached from an empty database by creating a subnet and joining it |
| `RewardTracking.RewardTracker.UpdateAfterBlock` | src/rewards.rs:260-332 | the hook leaves exactly the specified tables, for any order of subnets and candidates |
| `RewardTracking.RewardTracker.UpdateAfterCheckpoint` | src/rewards.rs:337-419 | the hook leaves exactly the specified tables |
| `RewardTracking.SumRewards` | src/rewards.rs:316-317 | the total does not depend on the order of the hash map |
| `PushData.RoundTrip` | src/bitcoin_utils.rs:250-265 | parsing a printed script gives back exactly the bytes, for every byte string |
| `PushData.PrintedScriptSpends` | src/bitcoin_utils.rs:250-265 | executing a printed script leaves exactly one true element |
| `PushData.MakePushDataScript` | src/bitcoin_utils.rs:250-265 | the loop prints the script, which parses back and leaves one true element |
| `PushData.ConcatenateOpPushData` | src/bitcoin_utils.rs:555-582 | the loop over instructions computes the parser, including its errors |
| `PushDataScripts.ParseExactly` | src/bitcoin_utils.rs:555-582 | on every byte string: the parser returns exactly what pushes, drops and trues push, refuses exactly a script in which another opcode follows such instructions, and reports exactly a script that ends inside an instruction |
| `PushDataScripts.PrintLayout` | src/bitcoin_utils.rs:250-265 | a printed script consists of one push and drop per 520 bytes, and a true at the end |
| `PushDataScripts.PrintIsShortest` | src/bitcoin_utils.rs:250-265 | no script of these instructions is shorter than the printed one |

## Left out

- RPC servers, the wallet, the asynchronous monitor loop and everything else that is I/O; from the monitor only the block order and the order of the reward hooks are kept.
- Cryptography and encodings: signatures are an arbitrary validity relation, taproot addresses an injective function, database keys are tuples.
- The byte encoding of the multisig script: the script is a sequence of opcodes, and number pushes are values.
- Transaction weights and fee rates: the fee is an arbitrary function of the weight, and every input has the same arbitrary weight.
- `multisig_spend_max_witness_size`: it mixes length encodings and is not an upper bound for all weights.
- The five-percent stake check is floating point and appears as an arbitrary verdict of the message.
- The proportions of the kill split are floating point and appear as arbitrary shares for all outputs but the last; `SpendTransaction.ExactSharesFit` says what exact proportions give.
- Overflow of 32-bit power sums above 5000 members, of 64-bit amounts and of block heights: numbers are unbounded there; token balances are 256 bits with the source's clamp.
- Block hashes, IP and backup addresses, host names and other fields that are stored and never examined.
- Prefunding, withdrawals and the creation message's own field checks.
- The round trip between building and parsing a checkpoint transaction: the builder merges transfers by destination and orders outputs differently from the parser, so there is none for general messages.
- The batch ledger keeps of a subnet only its kill mark, its last checkpoint number and its checkpoint rows; the rest is in the lifecycle part, which shows that the checkpoint row a batch looks up is there.
- The list of rewards is a map: the order in which the source stores its entries is that of a hash map.
