# Verified model of the bundler

This project models the stateful core of an ERC-4337 bundler in Dafny and proves what it keeps true. It follows the
structure of the program:

- **Mempool and reputation** (`Mempool.dfy`, `Reputation.dfy`, `WorldEvents.dfy`, `MempoolInvariants.dfy`,
  `MempoolQuota.dfy`, `MempoolAdmission.dfy`): pending operations, the count of roles each address plays, admission,
  replacement, removal, bans, decay and the order of inclusion. The two managers are classes whose fields are updated as in the program; every method is
  proved to compute a function on values, and the theorems about whole runs are proved about those functions.
- **Bundles** (`Bundling.dfy`, `BundleManager.dfy`, `BundlingTheorems.dfy`, `BundleCompleteness.dfy`,
  `BundleService.dfy`, `BundleReasons.dfy`, `BundleSafety.dfy`, `BlameLaws.dfy`, `StorageIsolation.dfy`): the packing
  loop over a sorted snapshot, blame for failures, EIP-7702 tuples and merged storage maps (`StorageMaps.dfy`, an object with slot tables that are updated by reference). At each
  wait the environment may do anything to the mempool and the scores: an environment is a function from the turns of
  the loop to what happens while waiting and what the wait answers, and the theorems hold for all of them.
- **The ERC-7562 rule checker** (`CallTraces.dfy`, `RuleChecker.dfy`, `Erc7562Parser.dfy`, `RuleCheckerTheorems.dfy`,
  `Attribution.dfy`, `Compliance.dfy`, `StorageOwners.dfy`): the recursive walk over call traces with its mutable fields, in its throwing
  and its collecting mode; and the older storage-rule engine (`LegacyStorageRules.dfy`) it is compared with.
- **The step tracer** (`StepTracer.dfy`, `TracedLevels.dfy`, `TraceCounts.dfy`): the automaton over EVM steps, run against a
  machine with storage and reverting frames.
- **Events** (`Events.dfy`): on-chain logs turned into removals and included counts, with a block cursor.
- **Encodings and acceptance** (`ByteStrings.dfy`, `UserOpEncoding.dfy`, `Acceptance.dfy`): packed words and operations,
  validity windows, and pre-verification gas after the Specification section of EIP-7623.

`dafny verify dfyconfig.toml` checks the whole project.

## Conventions

- Addresses, hashes and byte fields are byte strings, so two spellings of one address are one value. The program compares
  some addresses as raw text (`packages/bundler/src/modules/BundleManager.ts:370`,
  `packages/bundler/src/modules/MempoolManager.ts:206` and `:298`); differences of letter case are not part of this model.
- Numbers are unbounded. Fractions are exact: a replacement fee of 1.1 times the old one is `10 * new >= 11 * old`, the
  inclusion rate is a floor of an exact quotient, and gas weights are reals.
- keccak, the signer of an EIP-7702 tuple, the decoding of addresses from the stack and the ABI encoding of an operation
  are parameters. Opcodes of the rule checker are numbers; a call names its method through a datatype.
- Errors that the program throws are results: `Result`, `Check`, `Outcome` or `Attempt` values, in the order of the checks.

## Where the code differs from what one might assume

The model follows the code. These facts are proved, with the exact condition where there is one:

- Replacing an entry leaves the role counts as they are, so they stay right if and only if the entities stay the same
  (`ReplacementKeepsCounts`); the undoing call counts a staked sender upwards once more (`ReplacementSightings`).
- A throttled paymaster or factory is never bundled at all (`BadStandingNeverServed`).
- The size limit of a request is compared with the size of the mempool (`SizeLimitEmptiesBundle`).
- A refused merge of tuples can leave tuples behind (`RefusedMergeKeepsTuples`).
- The order of inclusion is ascending in the priority fee (`SortByCostSorts`).
- One tick of the hourly job lifts every ban and throttling (`CronTickClearsStatus`).
- A strict use of the rule checker that throws leaves it throwing for the next collecting use (`CollectingDependsOnHistory`).
- The entity of a frame leaks to later siblings (`EntityLeaksToSibling`), exactly on the traces `HeldIsInheritedIff`
  describes.
- Storage reached by delegation is recorded under the implementation, so the filter of the bundle can miss it
  (`CloneIsBundled`); `OwnersNamedIff` says exactly when it cannot.
- The two storage-rule engines differ on sender-associated slots a paymaster touches while the account is created; the
  exact condition is that of `EnginesAgreeIff`.
- They also differ on delegated code: the older engine goes by the contract whose storage is accessed
  (`packages/validation-manager/src/BundlerCollectorTracer.ts:330`), the newer by the code that runs
  (`ProxyAccountIff`, `ProxyEntityIff`).
- Replacements skip the reputation check, so they can bring a banned address back (`StepNamesIff`).
- A low half above 128 bits, the EIP-7702 marker factory and a zero `validUntil` do not survive their round trips
  (`UnpackPackUint`, `MarkerFactoryChanges`, `PackParseValidationData`).
- Aggregators are credited only for a log named `SignatureAggregatorForUserOperations`
  (`packages/bundler/src/modules/EventsManager.ts:63`), although the type of the handler's argument names
  `SignatureAggregatorChanged`; a log of the latter name is an `Other` log here.

## Model

| member | source | states |
|---|---|---|
| Mempool.MempoolManager.AddUserOp | packages/bundler/src/modules/MempoolManager.ts:67-108 | an accepted submission appends the entry and counts its roles, or replaces the entry with the same sender and packed nonce without touching the counts or repeating the reputation and role checks; a refused one changes neither mempool nor scores and reports the first failed check |
| Mempool.MempoolManager.UpdateSeenStatus | packages/bundler/src/modules/MempoolManager.ts:110-120 | a sender that passes the stake check is counted upwards on every call, also an undoing one; aggregator, paymaster and factory move by the given value |
| Mempool.MempoolManager.CheckReputationStatus | packages/bundler/src/modules/MempoolManager.ts:158-176 | banned entities are refused always, throttled ones above four pending operations, others above their allowance unless staked |
| Mempool.MempoolManager.CheckReputation | packages/bundler/src/modules/MempoolManager.ts:122-129 | the failure of the first failing role in the order account, paymaster, deployer, aggregator |
| Mempool.MempoolManager.Find | packages/bundler/src/modules/MempoolManager.ts:202-221 | the first position that matches by sender and packed nonce, or by hash; -1 exactly when none does |
| Mempool.MempoolManager.RemoveUserOp | packages/bundler/src/modules/MempoolManager.ts:227-245 | the first match leaves the mempool and its roles leave the counts; without a match nothing changes |
| Mempool.MempoolManager.RemoveBannedAddr | packages/bundler/src/modules/MempoolManager.ts:293-302 | the reverse scan in place is the scan specified on values, each hit removed through its hash |
| Mempool.MempoolManager.IncrementEntryCount | packages/bundler/src/modules/MempoolManager.ts:36-42 | counts one more role, from zero when absent; nothing for an absent address |
| Mempool.MempoolManager.DecrementEntryCount | packages/bundler/src/modules/MempoolManager.ts:44-54 | counts one role less and deletes the count when none is left; nothing for an uncounted address |
| MempoolInvariants.ReachableInvariants | packages/bundler/src/modules/MempoolManager.ts:36-108 | in every reachable state at most one entry for each sender and packed nonce; over runs whose replacements keep paymaster and factory, each count is the number of roles played and is absent exactly when that is zero |
| MempoolInvariants.StepKeeps | packages/bundler/src/modules/MempoolManager.ts:67-302 | each kind of event keeps the three mempool invariants |
| MempoolInvariants.RunsKeepUniqueSlots | packages/bundler/src/modules/MempoolManager.ts:67-108 | any run keeps slots unique |
| MempoolInvariants.OrderlyRunsKeepCounts | packages/bundler/src/modules/MempoolManager.ts:36-108 | runs whose replacements keep the entities keep the counts right |
| MempoolInvariants.OrderlyRunsKeepRolesSeparated | packages/bundler/src/modules/MempoolManager.ts:131-156 | over runs of validated submissions whose replacements keep the entities, no pending sender is the paymaster or factory of another pending operation |
| MempoolInvariants.ReplacementKeepsCounts | packages/bundler/src/modules/MempoolManager.ts:84-88 | a replacement leaves the counts right if and only if old and new operation name the same entities |
| MempoolInvariants.ReplacementSightings | packages/bundler/src/modules/MempoolManager.ts:104-120 | a replacement naming the same entities leaves their seen counts as they were, but raises a staked sender's by two, or by one when the first sighting bans it |
| MempoolInvariants.BannedScanClears | packages/bundler/src/modules/MempoolManager.ts:293-302 | after the scan no pending operation names the address in any role |
| MempoolInvariants.BannedScanExact | packages/bundler/src/modules/MempoolManager.ts:293-302 | with unique hashes the scan removes exactly the operations naming the address and keeps the order of the rest |
| MempoolInvariants.SortByCostSorts | packages/bundler/src/modules/MempoolManager.ts:190-200 | the order of inclusion is a permutation of the mempool, ascending in the priority fee, and stable |
| MempoolInvariants.StableSortUnique | packages/bundler/src/modules/MempoolManager.ts:190-200 | an ascending, stable arrangement is unique, so any stable sort gives this order |
| MempoolQuota.UnstakedSenderQuota | packages/bundler/src/modules/MempoolManager.ts:158-176 | over runs of validated submissions whose replacements keep the entities, a sender without stake never has more than four pending operations |
| MempoolQuota.SubmittedWithinQuota | packages/bundler/src/modules/MempoolManager.ts:67-108 | one validated submission keeps an unstaked sender within its four operations |
| MempoolAdmission.ReplacementIff | packages/bundler/src/modules/MempoolManager.ts:178-188 | an operation for an occupied slot is accepted if and only if both its fees are at least 1.1 times the pending ones, and is otherwise refused for the first fee that falls short |
| MempoolAdmission.AdmissionIff | packages/bundler/src/modules/MempoolManager.ts:122-176 | an operation for a free slot is admitted if and only if it skips validation, or each entity is not banned, is not throttled with more than four pending, and is within its allowance or has the stake asked for, and no address is a sender here and an entity there |
| MempoolAdmission.SubmissionFillsSlot | packages/bundler/src/modules/MempoolManager.ts:67-108 | after an accepted submission its sender and packed nonce find the submitted operation with its hash, prefund, contracts and aggregator, and every other slot finds what it found before |
| MempoolAdmission.AdmissionSightings | packages/bundler/src/modules/MempoolManager.ts:104-120 | an admitted operation is counted as seen once for each role of paymaster, factory and aggregator and for a sender with stake; nobody else's score moves |
| MempoolAdmission.StepKeepsFees | packages/bundler/src/modules/MempoolManager.ts:67-302 | an event leaves an occupied slot alone, empties it, or gives it to an operation that pays no less |
| MempoolAdmission.FeesNeverFall | packages/bundler/src/modules/MempoolManager.ts:178-188 | along any run both fees pending at a sender and packed nonce never fall while the slot stays occupied |
| MempoolAdmission.RemovalEmptiesSlot | packages/bundler/src/modules/MempoolManager.ts:227-245 | removing an operation empties its slot and changes no other |
| MempoolAdmission.PackedNonceParts | packages/utils/src/Utils.ts:238-247 | the sequence number is the low 64 bits of the packed nonce and the key is the rest |
| Reputation.ReputationManager.GetOrCreate | packages/bundler/src/modules/ReputationManager.ts:95-106 | the entry of the address, created with zero counts when missing |
| Reputation.ReputationManager.UpdateSeenStatus | packages/bundler/src/modules/ReputationManager.ts:113-120 | the seen count moves by the value, never below zero; nothing for an absent address |
| Reputation.ReputationManager.UpdateIncludedStatus | packages/bundler/src/modules/ReputationManager.ts:127-131 | the included count grows by one |
| Reputation.ReputationManager.CrashedHandleOps | packages/bundler/src/modules/ReputationManager.ts:184-194 | the penalty is added to the seen count and the included count is cleared |
| Reputation.ReputationManager.HourlyCron | packages/bundler/src/modules/ReputationManager.ts:75-85 | every entry decays, whatever the order of visiting, and exactly the entries that reach zero are deleted |
| Reputation.ScoreBounds | packages/bundler/src/modules/ReputationManager.ts:113-131 | along any run the seen count loses at most the decrements and the included count gains exactly the inclusions |
| Reputation.CrashedStaysBanned | packages/bundler/src/modules/ReputationManager.ts:138-194 | a crashed entity that is not whitelisted stays banned through any interleaving of sightings, decrements and inclusions that leave the expected inclusions above the slack |
| Reputation.CrashedStaysBannedUnderBundlerParams | packages/bundler/src/modules/ReputationManager.ts:28-32 | with the bundler parameters: d decrements and i inclusions with floor((10000-d)/10) > i+50 |
| Reputation.DecayBound | packages/bundler/src/modules/ReputationManager.ts:75-85 | after n ticks alone the seen count times 24^n is at most the first one times 23^n |
| Reputation.DecayByOne | packages/bundler/src/modules/ReputationManager.ts:75-85 | each tick lowers a positive seen count by at least one |
| Reputation.DecayDeletes | packages/bundler/src/modules/ReputationManager.ts:75-85 | ticks alone delete every entry within max(1, opsSeen) of them |
| Reputation.CronTickClearsStatus | packages/bundler/src/modules/ReputationManager.ts:75-85 | a single tick lifts every ban and throttling the black list does not impose, because the included count is recomputed from the seen count |
| Reputation.StandingIff | packages/bundler/src/modules/ReputationManager.ts:138-158 | exactly at how many sightings an address on neither list becomes throttled and banned, and that the white list comes before the black list |
| Reputation.AllowanceIs | packages/bundler/src/modules/ReputationManager.ts:265-287 | four operations for a sender; for another entity ten, one for each full tenth of its sightings that was included, and one for each inclusion up to ten thousand |
| Reputation.TickIs | packages/bundler/src/modules/ReputationManager.ts:75-85 | a tick leaves exactly floor(23/24) of the sightings, and of those floor(23/24) as inclusions |
| BundleManagement.BundleManager.CreateBundle | packages/bundler/src/modules/BundleManager.ts:311-454 | the loop over the snapshot, with its shared list, its storage map object and the waits at which the environment acts, computes exactly the specified attempt: bundle, tuples, storage and final shared state, or the propagated error |
| BundleManagement.BundleManager.Screen | packages/bundler/src/modules/BundleManager.ts:337-374 | the checks before the second validation: size limit, base fee, banned (with removal), throttled, sender already bundled |
| BundleManagement.BundleManager.Revalidate | packages/bundler/src/modules/BundleManager.ts:375-386 | the second validation, skipped for debug entries, with the removals and sightings its failure causes |
| BundleManagement.BundleManager.TakeIn | packages/bundler/src/modules/BundleManager.ts:388-451 | from a passed validation: foreign storage, gas limits, deposit, merged storage and tuples |
| BundleManagement.BundleManager.Charge | packages/bundler/src/modules/BundleManager.ts:417-430 | the prefund is taken from what is left of the balance fetched at first use; too little leaves the fetched balance uncharged |
| BundleManagement.BundleManager.MergeResult | packages/bundler/src/modules/BundleManager.ts:435-446 | storage is merged before a conflict of tuples can still drop the operation |
| BundleManagement.BundleManager.MergeEip7702Authorizations | packages/bundler/src/modules/BundleManager.ts:463-475 | the tuples pushed onto the shared list, and refusal at the first known signer that delegates elsewhere |
| BundleManagement.BundleManager.HandleFailedHandleOps | packages/bundler/src/modules/BundleManager.ts:197-210 | a blamed entity loses its pending operations and crashes, the sightings of the operation are undone, and the operation is removed in any case |
| BundleManagement.BundleManager.HandleSecondValidationException | packages/bundler/src/modules/BundleManager.ts:477-503 | a FailedOp undoes the sightings, counts the blamed entity and removes the operation, even when nobody is blamed; other errors remove it or propagate |
| BundlingTheorems.BundleIsSelection | packages/bundler/src/modules/BundleManager.ts:311-454 | each bundled operation comes from the mempool, passed or skipped validation and pays the requested base fee; they keep the ascending order of the snapshot, and no sender occurs twice |
| BundlingTheorems.BundleGasBudget | packages/bundler/src/modules/BundleManager.ts:402-416 | preOpGas plus callGasLimit over the bundle is at most the configured cap and strictly below a nonzero requested cap |
| BundlingTheorems.BundleDepositBudget | packages/bundler/src/modules/BundleManager.ts:417-451 | the prefunds of a paymaster's bundled operations sum to at most its balance as fetched by the turn of the attempt that fetched it, even when operations are dropped after being charged |
| BundlingTheorems.FetchedOnce | packages/bundler/src/modules/BundleManager.ts:417-420 | only one turn of an attempt fetches the balance of a paymaster |
| BundlingTheorems.BundleAuthorizations | packages/bundler/src/modules/BundleManager.ts:442-475 | the shared list has distinct signers, every authorization of a bundled operation matches a listed tuple with its signer and delegate, and with at most one authorization each, every listed tuple belongs to a bundled operation |
| BundlingTheorems.MergeKeepsAuths | packages/bundler/src/modules/BundleManager.ts:463-475 | one merge keeps signers distinct and earlier tuples in place, adds only tuples of the operation, and on success serves all of them |
| BundlingTheorems.RefusedMergeKeepsTuples | packages/bundler/src/modules/BundleManager.ts:463-475 | a refused merge stops at a tuple whose signer is listed with another delegate and keeps exactly what the tuples before it added; it leaves the list unchanged if and only if none of them had a new signer |
| BundlingTheorems.BundleIsolation | packages/bundler/src/modules/BundleManager.ts:388-397 | no bundled operation's storage map names the sender of another operation in the bundle |
| BundlingTheorems.BundleStorageCovers | packages/bundler/src/modules/BundleManager.ts:435-440 | the storage map sent along covers every dependency of every bundled operation, and carries the account root of each existing bundled sender where roots are asked for |
| BundlingTheorems.SizeLimitEmptiesBundle | packages/bundler/src/modules/BundleManager.ts:337-341 | a size limit is compared with the mempool: reached by it, the bundle is empty and nothing happens; otherwise the bundle is smaller than the limit |
| BundleCompleteness.CalmBundleServesEverySender | packages/bundler/src/modules/BundleManager.ts:311-454 | when every entry is in good standing and passes validation, tuples agree and limits and balances leave room, an entry is bundled if and only if it is the first of its sender in the order of inclusion, and the mempool is left alone |
| BundleReasons.EveryDropHasAReason | packages/bundler/src/modules/BundleManager.ts:311-454 | in every attempt that ends with a bundle, each operation of the snapshot is bundled unless its own fees, validation or foreign storage, an earlier bundled operation of its sender, the rest of its paymaster's deposit, a conflict with a kept tuple, a gas cap reached at it or before it, the standing of its paymaster or factory, or the size limit speaks against it |
| BundleService.NothingDroppedWithoutReason | packages/bundler/src/modules/BundleManager.ts:311-454 | when caps and balances leave room for the whole snapshot, an operation with nothing against itself whose paymaster and factory stay in good standing is bundled, or an earlier one of its sender is, however validation, fees, standing and storage of the others turn out |
| BundleService.ThrowsOnlyForReason | packages/bundler/src/modules/BundleManager.ts:375-451 | an attempt throws only when some operation's validation fails fatally, or passes without the prefund its paymaster owes |
| BundleSafety.BadStandingNeverServed | packages/bundler/src/modules/BundleManager.ts:350-369 | while an address is throttled or banned no bundle contains an operation with it as paymaster or factory; the allowance for throttled entities is never reached |
| BundleSafety.BlameClearsAndBans | packages/bundler/src/modules/BundleManager.ts:197-210 | blaming an entity leaves no pending operation that names it, and bans it unless it is whitelisted, with either parameter set of the program |
| BlameLaws.PaymasterFailure | packages/bundler/src/modules/BundleManager.ts:273-289 | after a failed handleOps with AA3 a staked account, otherwise the paymaster, has no pending operation in any role, is banned unless whitelisted, and has exactly the penalty added and its inclusions cleared; the sightings of the operation are undone, everybody else's inclusions stay, and no operation but those and the failed one leaves the mempool |
| BlameLaws.AccountFailure | packages/bundler/src/modules/BundleManager.ts:273-289 | after AA2 the same of a staked factory, otherwise of the sender, never of the paymaster |
| BlameLaws.CreationFailure | packages/bundler/src/modules/BundleManager.ts:273-289 | after AA1 the same of the factory; without one nobody's score moves |
| BlameLaws.OtherFailure | packages/bundler/src/modules/BundleManager.ts:197-210 | after any other reason only the failed operation is removed |
| BlameLaws.ValidationFailure | packages/bundler/src/modules/BundleManager.ts:477-503 | after a failed second validation the sightings of the operation are undone, exactly the party that AA1, AA2 or AA3 points to is seen once more, and only the failed operation leaves the mempool |
| BlameLaws.FailedTurn | packages/bundler/src/modules/BundleManager.ts:383-386 | a failed second validation in the loop has that effect, and the attempt goes on with the packing unchanged |
| BlameLaws.BannedTurn | packages/bundler/src/modules/BundleManager.ts:350-356 | an operation whose paymaster or factory is banned is removed and nothing else happens |
| BlameLaws.UnexplainedTurn | packages/bundler/src/modules/BundleManager.ts:477-489 | after a validation error that is neither a FailedOp nor fatal the operation is removed and nothing else happens |
| BlameLaws.QuietTurn | packages/bundler/src/modules/BundleManager.ts:337-451 | the loop does nothing to the mempool or the scores because of an operation that pays too little, or whose entities are not banned and whose validation does not fail |
| BundleSafety.StepKeepsSenderOut | packages/bundler/src/modules/MempoolManager.ts:67-108 | no validated submission, replacement or other event brings back an operation of a banned sender |
| BundleSafety.BanSafety | packages/bundler/src/modules/BundleManager.ts:199-209 | after a failed handleOps blamed on an address, for as long as it stays banned, no reachable mempool, also between two events inside a bundle attempt, holds an operation it sent, and no later bundle names it in any role, under any interleaving of events and bundle attempts |
| BundleSafety.BanSafetyInAllRoles | packages/bundler/src/modules/BundleManager.ts:199-209 | when in addition no replacement introduces the address and submissions carry the stake information of all their entities, no reachable mempool holds an operation naming it in any role |
| BundleSafety.StepNamesIff | packages/bundler/src/modules/MempoolManager.ts:84-102 | an event brings a banned address back into the mempool if and only if it is an accepted replacement that introduces it |
| StorageIsolation.BundleIsolationEndToEnd | packages/bundler/src/modules/BundleManager.ts:388-397 | for any mempool, validation outcomes and interference, no visited non-system frame of a validated bundled operation that accesses storage runs the code of the sender of another bundled operation; that sender's storage is not accessed at all unless it delegates every access |
| StorageIsolation.UnnamedOwnerIsBundled | packages/bundler/src/modules/BundleManager.ts:388-397 | the exception is real: for every accepted trace, of an operation whose own tuples are consistent, that accesses the storage of a contract the storage map does not name, there is a bundle with its operation and one sent by that contract |
| StorageIsolation.CloneIsBundled | packages/bundler/src/modules/BundleManager.ts:388-397 | such a bundle for a concrete trace: a call to a clone that delegates to an implementation |
| Erc7562Parser.ERC7562Parser.RequireCompliance | packages/validation-manager/src/ERC7562Parser.ts:63-72 | the throwing mode on the mutable parser: it ends as the specified strict walk does, and leaves the flag set when it throws |
| Erc7562Parser.ERC7562Parser.ParseResults | packages/validation-manager/src/ERC7562Parser.ts:82-108 | whatever an earlier call left in the fields, the walk ends as specified for the current flag, with the same violations, addresses and storage |
| Erc7562Parser.ERC7562Parser.InnerStepRecursive | packages/validation-manager/src/ERC7562Parser.ts:250-281 | the recursive walk over the call tree, threading entity, violations, addresses and storage through the fields |
| Erc7562Parser.ERC7562Parser.DetectEntityChange | packages/validation-manager/src/ERC7562Parser.ts:164-199 | at a boundary frame the entity becomes the one the callee stands for, or the walk fails; elsewhere it stays |
| Erc7562Parser.ERC7562Parser.ViolationDetected | packages/validation-manager/src/ERC7562Parser.ts:156-162 | the violation is listed, and thrown exactly when the flag is set |
| Erc7562Parser.ERC7562Parser.CheckOp011 | packages/validation-manager/src/ERC7562Parser.ts:287-322 | OP-011: every banned opcode used, except inside the EntryPoint |
| Erc7562Parser.ERC7562Parser.CheckOp020 | packages/validation-manager/src/ERC7562Parser.ts:327-347 | OP-020: running out of gas |
| Erc7562Parser.ERC7562Parser.CheckOp031 | packages/validation-manager/src/ERC7562Parser.ts:352-396 | OP-031, OP-032 and EREP-060: contract creation and its three exceptions |
| Erc7562Parser.ERC7562Parser.CheckOp041 | packages/validation-manager/src/ERC7562Parser.ts:401-434 | OP-041 and OP-042: access to addresses without code |
| Erc7562Parser.ERC7562Parser.CheckOp054 | packages/validation-manager/src/ERC7562Parser.ts:441-472 | OP-052 to OP-054: calls into the EntryPoint |
| Erc7562Parser.ERC7562Parser.CheckOp054ExtCode | packages/validation-manager/src/ERC7562Parser.ts:474-494 | OP-054: EXTCODE access to the EntryPoint |
| Erc7562Parser.ERC7562Parser.CheckOp061 | packages/validation-manager/src/ERC7562Parser.ts:499-521 | OP-061: calls with value |
| Erc7562Parser.ERC7562Parser.CheckOp062AllowedPrecompiles | packages/validation-manager/src/ERC7562Parser.ts:530-551 | OP-062: forbidden precompiles |
| Erc7562Parser.ERC7562Parser.CheckOp080 | packages/validation-manager/src/ERC7562Parser.ts:556-590 | OP-080: opcodes for staked entities only |
| Erc7562Parser.ERC7562Parser.CheckErep050 | packages/validation-manager/src/ERC7562Parser.ts:595-614 | EREP-050: a context from an unstaked paymaster |
| Erc7562Parser.ERC7562Parser.CheckStorage | packages/validation-manager/src/ERC7562Parser.ts:616-685 | the storage rules: every accessed slot is recorded, each forbidden one reported once with its description, and without an entity the first slot fails |
| Erc7562Parser.ERC7562Parser.ParseEntitySlots | packages/validation-manager/src/ERC7562Parser.ts:223-248 | the slots of each entity are the hashes of the preimages that start with its padded address |
| Erc7562Parser.ERC7562Parser.AssociatedWith | packages/validation-manager/src/ERC7562Parser.ts:135-154 | a slot is associated with an address if and only if it is the padded address or lies within 128 of one of its hashes |
| RuleCheckerTheorems.StrictRefinesCollecting | packages/validation-manager/src/ERC7562Parser.ts:63-108 | over every call tree the strict mode throws exactly the first violation the collecting mode lists before any other error, and otherwise ends exactly as it does |
| RuleCheckerTheorems.UseAll | packages/validation-manager/src/ERC7562Parser.ts:63-108 | any list of uses of one parser object leaves the flag, and answers each use, as the history on values says |
| RuleCheckerTheorems.StrictIgnoresHistory | packages/validation-manager/src/ERC7562Parser.ts:63-108 | a strict use of a parser object answers the same whatever was done with the object before |
| RuleCheckerTheorems.CollectingDependsOnHistory | packages/validation-manager/src/ERC7562Parser.ts:68-71 | a collecting use of a fresh object answers as a collecting walk if and only if the last strict use before it did not throw, or there is nothing to collect |
| RuleCheckerTheorems.StakeMonotonicity | packages/validation-manager/src/ERC7562Parser.ts:117-133 | with more entities staked the violations are a subsequence of the original ones, descriptions included; addresses, storage map and errors stay the same |
| RuleCheckerTheorems.CompliantStaysCompliant | packages/validation-manager/src/ERC7562Parser.ts:117-133 | with more entities staked a compliant operation stays compliant with the same findings |
| RuleCheckerTheorems.SlotReportMonotone | packages/validation-manager/src/ERC7562Parser.ts:646-683 | a slot that stays forbidden under more stakes keeps its description |
| Attribution.VisitJudgesHeld | packages/validation-manager/src/ERC7562Parser.ts:250-281 | the recursive walk is the judgement, frame after frame, of the visited frames with the entity the mutable field holds at each of them |
| Attribution.HeldIsLastBoundary | packages/validation-manager/src/ERC7562Parser.ts:164-199 | the field holds the entity of the last boundary frame entered, and the walk gets lost if and only if a boundary frame is unknown |
| Attribution.HeldIsInheritedIff | packages/validation-manager/src/ERC7562Parser.ts:164-281 | the entity held at every visited frame is that of its nearest boundary ancestor or itself if and only if no frame that is no boundary frame follows siblings whose last boundary frame has another entity than the parent |
| Attribution.WellNestedVisit | packages/validation-manager/src/ERC7562Parser.ts:164-281 | on well-nested traces the entity held in the mutable field at every visited frame is that of its nearest boundary ancestor or itself, whatever the field held at first |
| Attribution.WellNestedFindings | packages/validation-manager/src/ERC7562Parser.ts:82-99 | so on well-nested traces the outcome is that of the inherited entities |
| Attribution.QuietHeld | packages/validation-manager/src/ERC7562Parser.ts:250-281 | a subtree without boundary frames leaves the entity as it found it, and all its frames are checked with that entity |
| Attribution.EntityLeaksToSibling | packages/validation-manager/src/ERC7562Parser.ts:250-281 | a whole trace on which it is not: after the account reaches the paymaster through the SenderCreator, its next frame is blamed on the paymaster |
| Attribution.StorageMapIsFootprint | packages/validation-manager/src/ERC7562Parser.ts:641-645 | the storage map holds a slot of an address if and only if a visited non-system frame accessed it while running the code of that address, and names an address only with a slot; the address list is that of the visited frames in order |
| Compliance.AcceptedIff | packages/validation-manager/src/ERC7562Parser.ts:63-108 | a trace is accepted if and only if it makes calls, every visited frame entered from outside is of a known entity, and every visited frame keeps every rule, each stated on the fields of the frame, under the entity of the last frame entered from outside, or under nobody before the first |
| Compliance.CollectedReports | packages/validation-manager/src/ERC7562Parser.ts:82-108 | the collecting walk fails only without calls, at a frame of an unknown entity, or at storage accessed under none, and otherwise lists exactly the reports that some checked frame justifies |
| Compliance.ReportsAreJustified | packages/validation-manager/src/ERC7562Parser.ts:287-685 | a report is among those of a frame if and only if everything it says is so: rule, address, depth, entity, opcode, value and text |
| Compliance.ReportedIffBroken | packages/validation-manager/src/ERC7562Parser.ts:287-685 | a frame has a report of a rule if and only if it breaks the rule |
| Compliance.ReportsComeInTurn | packages/validation-manager/src/ERC7562Parser.ts:263-274 | the reports of a frame come in the order of the checks, so a strict walk throws that of the first failing check |
| Compliance.CompliantIff | packages/validation-manager/src/ERC7562Parser.ts:287-685 | a frame has no report and no failure if and only if it keeps every rule |
| Compliance.ClassifiedMeaning | packages/validation-manager/src/ERC7562Parser.ts:164-200 | an address is known if and only if it plays some role, and gets the first role in the order account, factory, paymaster, EntryPoint, SenderCreator, nonce manager |
| Compliance.HeldNested | packages/validation-manager/src/ERC7562Parser.ts:250-281 | every checked frame but the root lies one level below a checked frame that calls it, and a DELEGATECALL reports the storage context of its caller |
| StorageOwners.NamedIffTouched | packages/validation-manager/src/ERC7562Parser.ts:641-645 | the storage map names an address if and only if a visited non-system frame running its code accesses storage |
| StorageOwners.OwnersNamedIff | packages/validation-manager/src/ERC7562Parser.ts:635-645 | the storage map names every contract other than the account whose storage the trace accesses, directly or by delegation, if and only if every such contract that delegates an access also runs code of its own that accesses storage |
| StorageOwners.CloneStaysInTheDark | packages/validation-manager/src/ERC7562Parser.ts:635-645 | a trace where it does not: a call to a clone whose implementation uses a slot associated with the account passes, and the map names the implementation only |
| LegacyStorageRules.TracerResultParser.CheckAccess | packages/validation-manager/src/TracerResultParser.ts:234-305 | the scan with its deferred stake check accepts exactly when the storage is exempt, or no slot is forbidden and a stake is there if any slot needs one |
| LegacyStorageRules.TracerResultParser.ParseEntitySlots | packages/validation-manager/src/TracerResultParser.ts:33-65 | the slots of each address with stake information, and of no other |
| LegacyStorageRules.TracerResultParser.AssociatedWith | packages/validation-manager/src/TracerResultParser.ts:375-394 | the same association of slots as in the newer engine |
| LegacyStorageRules.SlotAgreement | packages/validation-manager/src/TracerResultParser.ts:269-301 | slot by slot both engines decide the same, except for sender-associated slots touched by a non-account entity during creation; there each engine's own condition is stated |
| LegacyStorageRules.EnginesAgreeIff | packages/validation-manager/src/TracerResultParser.ts:234-305 | over all access sets outside system contracts, a factory that is not the zero address, consistent stakes and code that stands to the account, the EntryPoint and the entity as the contract whose storage it accesses does, the engines accept the same if and only if no paymaster touches a sender-associated slot during creation or the stated stakes and other slots make up for it |
| LegacyStorageRules.EnginesAgree | packages/validation-manager/src/TracerResultParser.ts:234-305 | so they always agree when no paymaster touches a sender-associated slot during creation |
| LegacyStorageRules.ProxyAccountIff | packages/validation-manager/src/ERC7562Parser.ts:635-659 | for code an account delegates to, the engines agree if and only if each slot would be allowed to a call of that code: the older one takes the accesses for the account's own |
| LegacyStorageRules.ProxyEntityIff | packages/validation-manager/src/ERC7562Parser.ts:635-659 | for code a factory or paymaster delegates to, outside creation accesses, they agree if and only if the entity is unstaked or each slot is associated with the sender or the entity or only read |
| StepTracer.BundlerCollectorTracer.Step | packages/validation-manager/src/BundlerCollectorTracer.ts:184-355 | one step on the tracer object: levels, opcode counts, access tables, last opcode and the stop flag, or the type error of a step that needs a level when there is none |
| StepTracer.BundlerCollectorTracer.MarkOutOfGas | packages/validation-manager/src/BundlerCollectorTracer.ts:200-205 | marks the current level when a step cannot be paid for |
| StepTracer.BundlerCollectorTracer.RecordAccess | packages/validation-manager/src/BundlerCollectorTracer.ts:327-355 | the access tables after a step |
| StepTracer.ReadsArePreState | packages/validation-manager/src/BundlerCollectorTracer.ts:327-350 | for any sequence of steps and frame reverts within one level, every value stored as read is the slot's value when the level began, a slot is stored as read if and only if its first access was an SLOAD, and the write counter is the number of SSTOREs |
| StepTracer.GasCountIsStrayGas | packages/validation-manager/src/BundlerCollectorTracer.ts:314-325 | the GAS counter of a level is the number of GAS opcodes whose next opcode mentions no CALL |
| StepTracer.CountIsExecutions | packages/validation-manager/src/BundlerCollectorTracer.ts:314-325 | within a level the counter of every opcode but GAS grows by the number of executions, of an unimportant one by none |
| TracedLevels.EveryLevelReadsPreState | packages/validation-manager/src/BundlerCollectorTracer.ts:184-355 | for any trace of a new tracer, each recorded level belongs to the stretch from the call that opened it until the next level is opened, the tracer stops or the trace ends: every value it stores as read is the slot's value at that call, a slot is stored as read if and only if its first access in the stretch was an SLOAD, and its write counter is the number of SSTOREs there |
| TracedLevels.SpanIsStretch | packages/validation-manager/src/BundlerCollectorTracer.ts:225-274 | the levels divide the trace into consecutive stretches, each opened by a call at depth one or of the SenderCreator |
| TraceCounts.EveryLevelCounts | packages/validation-manager/src/BundlerCollectorTracer.ts:184-355 | for any trace of a new tracer, each level has the called address as its target, counts for every opcode the steps of its own stretch that execute it, GAS only where no call follows and unimportant ones never, and counts transient reads and writes slot by slot |
| TraceCounts.EveryLevelFlagged | packages/validation-manager/src/BundlerCollectorTracer.ts:200-205 | a level is marked out of gas if and only if a step of its stretch, or the call that opens the next level, costs more gas than there is or is an SSTORE with less than 2300 |
| TraceCounts.OpensIff | packages/validation-manager/src/BundlerCollectorTracer.ts:225-274 | a step opens a level if and only if it is a call at depth one, or at depth two under the SenderCreator; it fails if and only if it needs a level when there is none |
| TraceCounts.StopsAtTopic | packages/validation-manager/src/BundlerCollectorTracer.ts:263-270 | collecting has stopped if and only if the trace holds a LOG1 at depth one with the agreed topic |
| StorageMaps.MergeStorageMap | packages/utils/src/Utils.ts:171-192 | the merge in place computes the merge of the contents; the validated map is neither changed nor does the merged one share a slot table with it |
| StorageMaps.MergeEntry | packages/utils/src/Utils.ts:172-190 | one entry: a root always wins, slots are added with later values winning |
| StorageMaps.MergeAllMeaning | packages/utils/src/Utils.ts:171-192 | folding any list of maps gives an address its last root if some map had one, otherwise the union of its slots with later values winning, and nothing exactly when no map had it |
| StorageMaps.MergeAllOrderIrrelevant | packages/utils/src/Utils.ts:163-170 | maps that agree merge to the same result in any order and with any repetition |
| ChainEvents.EventsManager.HandlePastEvents | packages/bundler/src/modules/EventsManager.ts:38-53 | the loop over the queried logs, the start block of the first call, and which query errors propagate |
| ChainEvents.EventsManager.HandleEvent | packages/bundler/src/modules/EventsManager.ts:55-98 | one log: removal by hash, included counts of sender, paymaster, factory and remembered aggregator, and the block cursor |
| ChainEvents.EventsManager.GetEventAggregator | packages/bundler/src/modules/EventsManager.ts:80-86 | the aggregator is forgotten when an operation of another transaction asks for it |
| ChainEvents.EventsManager.IncludedAddress | packages/bundler/src/modules/EventsManager.ts:100-105 | data shorter than an address is not counted, longer data is cut |
| ChainEvents.ExactlyOnce | packages/bundler/src/modules/EventsManager.ts:38-53 | on an append-only chain, whatever happens between polls and however often queries fail, the polls handle each log from the start block on exactly once and in order, and a successful poll leaves none |
| ChainEvents.IncludedGainIsOccurrences | packages/bundler/src/modules/EventsManager.ts:55-105 | after a successful poll every included count has grown by exactly the address's occurrences since the start block as sender, paymaster, factory or aggregator announced in the same transaction |
| ChainEvents.HandledIsNotPending | packages/bundler/src/modules/EventsManager.ts:93-98 | an operation whose event was handled is not in the mempool, provided its hash was pending at most once and is not submitted again |
| ChainEvents.StepHashCount | packages/bundler/src/modules/MempoolManager.ts:67-302 | only a submission of a hash can raise the number of its pending entries, and by one at most |
| ChainEvents.RunStartsBehind | packages/bundler/src/modules/EventsManager.ts:38-53 | a run starts a thousand blocks behind the height its first poll saw, or at block one |
| UserOpEncoding.UnpackPackUint | packages/utils/src/ERC4337Utils.ts:53-60 | halves that pack come back if and only if the low one fits 128 bits |
| UserOpEncoding.PackUintFits | packages/utils/src/ERC4337Utils.ts:53-60 | two 128-bit halves always pack and come back |
| UserOpEncoding.PackUnpackUint | packages/utils/src/ERC4337Utils.ts:53-60 | packing the halves of a word gives the word back |
| UserOpEncoding.UnpackPackPaymaster | packages/utils/src/ERC4337Utils.ts:62-143 | paymaster, gas limits and data survive packing |
| UserOpEncoding.UnpackPackUserOp | packages/utils/src/ERC4337Utils.ts:145-208 | for 128-bit gas and fee fields, whole addresses and gas limits with a paymaster, unpacking a packed operation gives it back up to absent data becoming empty |
| UserOpEncoding.FieldsLie | packages/utils/src/ERC4337Utils.ts:145-208 | the two gas limits and the two fees lie in the high and low 16 bytes of their words, and the other fields are copied |
| UserOpEncoding.PaymasterLies | packages/utils/src/ERC4337Utils.ts:62-81 | paymaster, verification gas, post-operation gas and data lie at bytes 0, 20, 36 and 52 |
| UserOpEncoding.FactoryLies | packages/utils/src/ERC4337Utils.ts:153-165 | the factory, or the marker padded with zeros on the right, fills the first 20 bytes of the init code and its data follows |
| UserOpEncoding.MarkerFactoryChanges | packages/utils/src/ERC4337Utils.ts:155-159 | the EIP-7702 marker factory packs but comes back as the padded address |
| UserOpEncoding.PackUnpackUserOp | packages/utils/src/ERC4337Utils.ts:145-208 | packing an unpacked well-formed packed operation is the identity |
| UserOpEncoding.ParsePackValidationData | packages/utils/src/ERC4337Utils.ts:83-123 | parsing inverts packing for every 48-bit window and 160-bit aggregator, a zero validUntil being read as no end |
| UserOpEncoding.PackParseValidationData | packages/utils/src/ERC4337Utils.ts:83-123 | packing inverts parsing on a word if and only if its validUntil is not encoded as zero |
| Acceptance.TimeAcceptedIff | packages/validation-manager/src/ValidationManager.ts:170-434 | a traced operation passes the time checks if and only if the encoded windows of account and paymaster both contain now and last beyond now plus 30 seconds, an encoded zero meaning no end, up to the end of the 48-bit clock |
| Acceptance.TimeErrorIff | packages/validation-manager/src/ValidationManager.ts:422-434 | each refusal names what is wrong: not yet valid, expired, or ending within 30 seconds |
| Acceptance.ResultWindowIsMerge | packages/utils/src/ERC4337Utils.ts:111-117 | the window of the traced result is that of the separate merge function, and passes exactly when both windows pass |
| Acceptance.CountTokensMeaning | packages/sdk/src/PreVerificationGasCalculator.ts:214-218 | one token for each zero byte and the weight, cut to a byte, for each other byte |
| Acceptance.PlainOverhead | packages/sdk/src/PreVerificationGasCalculator.ts:152-176 | an operation pays the fixed overhead, the surcharge for an authorization, and for each started word of its call data |
| Acceptance.ExecuteOverhead | packages/sdk/src/PreVerificationGasCalculator.ts:160-169 | one executed through executeUserOp pays a surcharge and for the length of its whole encoding instead |
| Acceptance.GasUsedIs | packages/sdk/src/PreVerificationGasCalculator.ts:194-202 | the gas known to be paid is the given total, or the verification and the floor of a tenth of the two execution limits |
| Acceptance.BundleShares | packages/sdk/src/PreVerificationGasCalculator.ts:188-192 | without EIP-7623 the operations of a bundle of the expected size together pay its fixed costs exactly once |
| Acceptance.RequiredIsUncovered | packages/sdk/src/PreVerificationGasCalculator.ts:178-212 | the EIP-7623 result is the rounded larger of the standard cost and what the floor leaves after the gas used |
| Acceptance.RequiredNonIncreasing | packages/sdk/src/PreVerificationGasCalculator.ts:152-212 | more gas used never raises the requirement |
| Acceptance.RequiredAboveStandard | packages/sdk/src/PreVerificationGasCalculator.ts:178-192 | it never falls below the rounded requirement without EIP-7623 |
| Acceptance.RequiredCoversBothCosts | packages/sdk/src/PreVerificationGasCalculator.ts:178-212 | with the gas used it pays both the standard and the floor cost up to rounding, and no more than one of them |
| Acceptance.AdmissionIsWeaker | packages/validation-manager/src/ValidationManager.ts:447-533 | for actual use of at most 500000 the check on submission never rejects what the check after simulation accepts |

## Left out

- StorageIsolation.BundleIsolationEndToEnd: debug entries that skip validation have no trace and are excluded.
- BundleSafety.BanSafety: submissions are genuine, that is validated and carrying the stake information of their own sender; debug submissions that skip validation are excluded.
- MempoolInvariants.ReachableInvariants: the debugging calls that clear the mempool or set scores are not events of a run.
- ChainEvents.ExactlyOnce: the live subscription to logs (packages/bundler/src/modules/EventsManager.ts:29-34) is not modelled; together with polling it can count a log twice. Chain reorganisations are excluded.
- ChainEvents.IncludedGainIsOccurrences: crashes and the hourly job change included counts themselves and are excluded from the traffic between polls.
- LegacyStorageRules.EnginesAgreeIff: only the storage rules of the older engine are modelled, not its opcode, creation and call rules nor its storage map; access sets are compared frame by frame although the older engine collects them for a whole level. Delegated code where only one of code and storage owner is the account, the EntryPoint or the entity is compared for proxies of the account, a factory or a paymaster (ProxyAccountIff, ProxyEntityIff) and not in the reverse direction.
- TracedLevels.EveryLevelReadsPreState: in the traces considered the code at depth one enters frames only right after the call that opens their level, as the EntryPoint does.
- StepTracer.ReadsArePreState: transient storage is counted by the tracer but has no reference machine here; the collected EXTCODE, code size, keccak, call and log tables and the last three opcodes are not modelled.
- Acceptance.RequiredCoversBothCosts: gas weights are exact reals, not floating point numbers.
- BundleManagement.BundleManager.CreateBundle: the count of staked entities and the sum named bundleGas are computed by the program but never influence a bundle, and are omitted.
- Overflow of conversions to JavaScript numbers, which throws, is not modelled.
- The white and black lists are fixed when a reputation manager is created.
- Which errors are fatal, and the parsing of revert messages into an operation index and a reason, are answers of the environment.
- After a throwing use of the rule checker its private fields are not described, only the flag that later uses read.
- Selecting the validation calls from a trace (packages/validation-manager/src/ValidationManager.ts:128-150) and decoding their results: ABI plumbing.
- DepositManager: its loop subtracts the cost of the new operation once for each pending one, so there is little to state.
- The variants for RIP-7560 (BundleManagerRIP7560, ValidationManagerRIP7560) apart from the nonce key and lists of authorizations: their validation reports empty storage maps and zero limits.
- Sending transactions, RPC, command line, configuration, timers and locks: input and output.
- Solidity contracts, RLP, transaction signing and the SDK clients: outside the bundler's own logic.
