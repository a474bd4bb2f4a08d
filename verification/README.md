# Voltaire bundler: a verified model

Voltaire is an ERC-4337 bundler: it admits UserOperations over RPC and gossip, keeps them in one
pool per sender, collects bundles from the pools, sends them and retries, and decides with a traced
simulation which operations are safe to bundle. This project models that core in Dafny and proves
what it keeps: over every run, every interleaving, every trace, every history of calls.

`dafny verify dfyconfig.toml` checks everything.

| module | models |
|---|---|
| `Lifecycle`, `Runs` | the life of an operation as a state machine over the steps between two suspension points, and what holds over whole runs of it |
| `MempoolManagers`, `SenderMempools`, `SenderDirectory` | the mempool manager and the sender pools, updated in place, each call proved to be a step of that state machine |
| `BundleSending` | the send queue, the recursion after a failed operation, the price multiplier |
| `Binary64` | the division and rounding behind the fee bump, as Python computes it |
| `Spellings` | what it means that pools are keyed by the text of an address: hashes pooled twice, accounts bundled twice, exactly when |
| `Reputation` | reputation counters, statuses and the hourly backoff |
| `Tracer`, `OpcodeRules`, `StorageAccess`, `CallStack`, `TraceValidation` | the tracer that runs in the node and the checks on what it collects, against predicates on the trace itself |
| `ValidationRules`, `CallForests` | the validation rules in their own numbers and names, on steps and calls as they happen |
| `LruTimeCache` | the time-based duplicate cache of the peer-to-peer network |
| `PreVerificationGas`, `AbiPacking` | the gas formula, the estimate and the check at submission |
| `UserOperationCodec`, `Hex` | an operation and its JSON form |
| `Cron` | one turn of the cron job over the mempool managers and the bundle manager, as a run of the state machine |
| `HashQueries`, `HashRequests` | pages of hashes, look-up by hash, and the requests for announced hashes |

## What is assumed

- A hash determines the account and the nonce of its operation (`SenderMempools.Identity`), but not the spelling of the sender's address, which is what pools are keyed by. Spellings differ in letter case. Nothing else is assumed of hashes; keccak is a parameter. In traced mode the hash is read from the last traced frame whose input contains the selector of `validateUserOp` (voltaire_bundler/bundler/validation_manager.py:687-706), so a validation that makes such a call itself can yield another operation's hash; `SenderMempools.OverwriteLoses` says what an admission then does.
- One bundling round at a time per entrypoint, and the debug reset only between rounds. Admissions may interrupt a round at every await. The part of an admission after validation contains no await that suspends, so it is one step.
- `Operation.id` numbers admissions. It is bookkeeping of the model, so that two admissions of the same operation can be told apart.
- Replies of the node, clock readings and interleavings are parameters, so every theorem is about all of them. The clock of the cache is monotone, as `Instant` is.
- Integers are unbounded, as in Python. Python divides in binary64. The pools require the fee that this computation gives, for fees of every size (`Binary64`); the quotients of counters and of gas are exact here, which they are below 2^53.
- A trace starts in the top-level call with a step that needs no level yet; otherwise the tracer itself fails.

## What the proofs show about the code

Where the code does not do what one would expect of it, the model follows the code and a lemma says so.

- One account in two spellings has two pools. Submitting an operation once in each pools its hash twice and may bundle it twice (`Spellings.SpellingsPooledTwice`, `Spellings.SpellingsBundledTwice`); a look-up by hash then answers twice. `Spellings.AdmissionKeepsUnique`, `Spellings.ReachableUnique`, `HashQueries.PooledOnce` and `Spellings.BundledAccounts` say exactly when.
- A code-hash query that fails during a round loses the popped operation and everything collected so far: conservation needs the extra fate `Lost`. `MempoolManagers.MempoolManager.GetUserOperationsToBundle` says exactly when a round breaks off, `Runs.LostExactlyAtAborts` which operations a run loses.
- An underpriced reply after a failed operation drops the bundle, because the result of the inner call is ignored (`BundleSending.SendDecided`). The branch for replacement transactions is shadowed by the one before it, whose text it contains.
- `ban_entity` leaves the entity with status OK (`Reputation.BanMeansOk`), and a backoff can throttle an entity that was OK (`Reputation.BackoffKeepsOk`, exactly when).
- Entity counters are never decremented. A throttled factory or paymaster is refused once it was ever admitted, and a throttled sender that is neither always passes (`Runs.GateRemembers`).
- A fee below five needs no raise at all to be replaced (`SenderMempools.BumpIsFivePercent`). The computed fee is the exact one up to 2^50 wei (`Binary64.RoundsExactly`) and need not be beyond (`Binary64.RoundsDifferently`).
- An operation for which validation noted no code hash, because it found no associated address, is dropped by the round that pops it outside unsafe mode (`MempoolManagers.MempoolManager.Await`).
- An admission under a hash that its pool already holds at another nonce overwrites that entry without a trace. Operations are conserved exactly when that does not happen (`SenderMempools.OverwriteLoses`).
- The cursor of a page counts full pages only, so following it misses a last partial page (`HashQueries.FollowingMissesPartialPage`). The endpoint itself never asks for a second page: the message for it is built and not sent. It sees a peer's whole list if and only if that has at most 4096 hashes (`HashQueries.FirstPageIsAll`).
- Hashes that a peer announces while the bytes of a request to it are being taken, or for which the connection is refused, are cleared without being asked for; nothing else is lost (`HashRequests.DroppedExactlyWhenDisturbed`). A peer that announces for the first time during the pass changes the dictionary under iteration, and that exception ends the cron loop (`HashRequests.HashRequester.AskAll`).
- No call is ever recorded as reverted (`CallStack.NeverReverted`). A traced slot is never equal to the padded address as text, and the substring test on preimages is a prefix test (`StorageAccess.TracedSlots`, `StorageAccess.SearchIsPrefixTest`).

## Model

| member | source | states |
|---|---|---|
| `Lifecycle.StepInv` | voltaire_bundler/bundler/mempool/mempool_manager.py:127-329 | every step (RPC or gossip admission, reputation gate, round start, pop, code-hash reply, abort, round end, send, clear) keeps all invariants at once: well-formed pools, conservation, the round's bookkeeping, counters, gossip |
| `Lifecycle.StepBalanced` | voltaire_bundler/bundler/mempool/mempool_manager.py:127-329 | for every step and operation, the number of places it is in (pools, round, queue, departures) changes by exactly its new admissions |
| `Lifecycle.StepConserved` | voltaire_bundler/bundler/bundle/bundle_manager.py:77-333 | a step keeps the account: pools, round, queue and departures together hold each admitted operation as often as it was admitted |
| `Lifecycle.StepRound` | voltaire_bundler/bundler/mempool/mempool_manager.py:303-329 | whatever is admitted in between, visited and unvisited senders stay distinct, unvisited ones stay in the dictionary, no sender with operations at the snapshot is forgotten, and the bundle is what was popped, in order, without operations of changed code |
| `Lifecycle.StepOldest` | voltaire_bundler/bundler/mempool/mempool_manager.py:303-329 | the oldest operation a sender had at the snapshot stays in front until popped by the round, unless it is replaced |
| `Lifecycle.StepSnapshot` | voltaire_bundler/bundler/mempool/mempool_manager.py:303-314 | the round works through the senders of its snapshot in order, each once, however the dictionary changes meanwhile |
| `Lifecycle.StepCounters` | voltaire_bundler/bundler/mempool/mempool_manager.py:179-193 | through every step an entity's counter is the number of completed admissions that name it as factory plus those that name it as paymaster |
| `Lifecycle.StepGossip` | voltaire_bundler/bundler/mempool/mempool_manager.py:240-301 | hashes committed by gossip stay pairwise different and marked as seen |
| `Lifecycle.GatedCounts` | voltaire_bundler/bundler/mempool/mempool_manager.py:488-519 | the gate changes no count, although it creates counters |
| `Runs.ReachableOk` | voltaire_bundler/bundler/mempool/sender_mempool.py:26-94 | after every run on any number of entrypoints all invariants hold: each pool holds only its own sender's operations at pairwise different nonces, and the multiplier is a multiple of ten in 100..210 |
| `Runs.ExactlyOnePlace` | voltaire_bundler/bundler/mempool/mempool_manager.py:127-329 | after every run each admitted operation is in exactly one place, once: pooled, in the round, queued, or departed for one reason; anything not admitted is nowhere |
| `Runs.FatesAreFinal` | voltaire_bundler/bundler/bundle/bundle_manager.py:77-333 | over every run the record of departures, admissions and gossip only grows at its end, and the seen set only grows |
| `Runs.LostExactlyAtAborts` | voltaire_bundler/bundler/mempool/mempool_manager.py:316-323 | the operations a run loses are, in order, exactly these: at each exception in a round what the round had collected and the operation whose code hash it waited for |
| `Runs.FinishedRound` | voltaire_bundler/bundler/mempool/mempool_manager.py:303-329 | a finished round has popped exactly one operation of every sender text that had any at its start, in dictionary order, the oldest unless it was replaced meanwhile; the bundle is those in order minus changed code; no sender text occurs twice |
| `Runs.StepPatience` | voltaire_bundler/bundler/mempool/mempool_manager.py:303-329 | no step makes a pooled operation wait longer, and each round end makes it wait one round less, unless it has left |
| `Runs.StaysOut` | voltaire_bundler/bundler/mempool/mempool_manager.py:303-329 | an admitted operation that is out of its pool is never pooled again |
| `Runs.LeavesWithinRounds` | voltaire_bundler/bundler/mempool/mempool_manager.py:303-329 | no starvation: an operation at index k has left its pool for good after k + 1 round ends (one more if the running round had passed its sender), whatever is admitted in between |
| `Runs.RequeuesRaisePrice` | voltaire_bundler/bundler/bundle/bundle_manager.py:251-280 | over a run without a successful send, the shared multiplier rises by at least ten per requeue on any entrypoint |
| `Runs.RetryBound` | voltaire_bundler/bundler/bundle/bundle_manager.py:251-280 | at most eleven requeues across all entrypoints without a successful send |
| `Runs.SendNextIsRun` | voltaire_bundler/bundler/bundle/bundle_manager.py:77-88 | `send_next_bundle` is a run: one send on each lane with a queue, in order, up to the first exception, and it leaves the queues and the multiplier that run leaves |
| `Cron.UpdateSendQueue` | voltaire_bundler/bundler/bundle/bundle_manager.py:90-98 | on the objects: a round on each entrypoint in order up to the first that raises, each bundle behind its queue, is a run of the state machine from the state that managers and queues show to the state they show afterwards |
| `Cron.CronTurn` | voltaire_bundler/bundler/execution_endpoint.py:221-257 | one turn of the cron job is such a run too: the rounds, and only if none of them raised a send on each entrypoint with a queue, up to the first exception; so whatever holds over runs holds over any number of turns |
| `Cron.Replay` | voltaire_bundler/bundler/bundle/bundle_manager.py:90-98 | any steps of one manager, other than sends, are a run on its lane of the whole bundler: the other lanes and the multiplier stay, the mempools agree, and the queue grows by what the rounds hand over |
| `Cron.SendKeepsMempools` | voltaire_bundler/bundler/bundle/bundle_manager.py:77-88 | `send_next_bundle` changes no mempool of any entrypoint |
| `Runs.GossipAtMostOnce` | voltaire_bundler/bundler/mempool/mempool_manager.py:240-301 | over every run and interleaving gossip commits a hash at most once, and never one already seen |
| `Runs.CounterBoundsPool` | voltaire_bundler/bundler/mempool/mempool_manager.py:488-526 | an entity's counter is never below the pooled operations that name it |
| `Runs.PassesMeans` | voltaire_bundler/bundler/mempool/mempool_manager.py:448-519 | the gate, which stops at the first refusal and writes counters on the way, lets through exactly if each entity is admissible on the original counters |
| `Runs.GateRemembers` | voltaire_bundler/bundler/mempool/mempool_manager.py:448-519 | the gate in terms of the past: it passes if and only if no entity is banned and no throttled one was ever named as factory or paymaster in a completed admission |
| `Runs.UnstakedAdmissionBound` | voltaire_bundler/bundler/mempool/mempool_manager.py:162-177 | an unstaked admission, by RPC or gossip, leaves every pool no larger than it was or no larger than four |
| `MempoolManagers.ReachedInv` | voltaire_bundler/bundler/mempool/mempool_manager.py:93-329 | whatever sequence of calls a manager object has been through, its state satisfies every invariant of the life cycle |
| `MempoolManagers.MempoolManager.constructor` | voltaire_bundler/bundler/mempool/mempool_manager.py:93-125 | a new manager is the empty lane |
| `MempoolManagers.MempoolManager.CommitAdmission` | voltaire_bundler/bundler/mempool/mempool_manager.py:162-193 | pools, counters, number of admissions and seen statuses after an admission are those of the model's commit; a refusal changes nothing |
| `MempoolManagers.MempoolManager.AddUserOperation` | voltaire_bundler/bundler/mempool/mempool_manager.py:130-200 | an RPC admission is the submit step; it is accepted if and only if the pool raises no exception, and exactly then the operation is recorded as admitted, its factory and paymaster count one more and its entities are seen |
| `MempoolManagers.MempoolManager.AddUserOperationP2P` | voltaire_bundler/bundler/mempool/mempool_manager.py:240-298 | a gossip admission is the gossip step: it commits exactly if the hash was unseen and marks it in the same step, also when the pool refuses; counters and seen statuses move exactly if it commits and the pool raises no exception |
| `MempoolManagers.MempoolManager.UpdateAllSeenStatus` | voltaire_bundler/bundler/mempool/mempool_manager.py:402-413 | every entity is seen once for each of the roles sender, factory and paymaster it has in the operation, and no other record changes |
| `MempoolManagers.MempoolManager.VerifyEntityReputation` | voltaire_bundler/bundler/mempool/mempool_manager.py:488-519 | refuses a banned entity and a throttled one with a positive counter, and leaves a counter behind |
| `MempoolManagers.MempoolManager.VerifyEntitiesReputation` | voltaire_bundler/bundler/mempool/mempool_manager.py:448-486 | is the gate step, and passes if and only if sender, factory and paymaster each have seen - 10 included below 510, and at most 109 unless no admitted operation ever named them as factory or paymaster |
| `MempoolManagers.MempoolManager.PopOldest` | voltaire_bundler/bundler/mempool/mempool_manager.py:306-314 | takes the first entry of the sender's pool and leaves every other pool alone |
| `MempoolManagers.MempoolManager.SettleHeld` | voltaire_bundler/bundler/mempool/mempool_manager.py:322-327 | is the code-hash step: an operation whose noted code hash is the node's answer joins the bundle, and only then an empty pool is deleted |
| `MempoolManagers.MempoolManager.Await` | voltaire_bundler/bundler/mempool/mempool_manager.py:316-325 | raises exactly if a query was made and failed, keeps the operation exactly if the answer is its code hash (always in unsafe mode), commits exactly the arrivals in order meanwhile; a failure loses the bundle so far and the operation |
| `MempoolManagers.MempoolManager.Visit` | voltaire_bundler/bundler/mempool/mempool_manager.py:305-327 | one turn of the loop: a pop, and if there was an operation the wait with its arrivals and its end |
| `MempoolManagers.MempoolManager.GetUserOperationsToBundle` | voltaire_bundler/bundler/mempool/mempool_manager.py:303-329 | for every sequence of answers and arrivals: the steps of the round turn by turn; it raises if and only if the query for some popped operation failed, and then exactly the bundle so far and that operation are lost; otherwise the bundle is exactly the popped operations whose answer was their code hash, one per sender text, the oldest of each unless replaced, and goes behind the queue |
| `MempoolManagers.MempoolManager.ClearUserOperations` | voltaire_bundler/bundler/mempool/mempool_manager.py:127-128 | is the clear step: no pools, while counters and seen hashes stay |
| `SenderMempools.CalculateMinFeeToReplace` | voltaire_bundler/bundler/mempool/sender_mempool.py:121-123 | the required fee is the binary64 quotient rounded half to even, for every fee |
| `SenderMempools.CheckIfCanReplace` | voltaire_bundler/bundler/mempool/sender_mempool.py:96-119 | true if and only if the nonces agree and both fees reach what is required of them |
| `SenderMempools.BumpIsFivePercent` | voltaire_bundler/bundler/mempool/sender_mempool.py:96-123 | a replacement must raise a fee by at least a twentieth if and only if the fee is zero or at least five; below five the required fee is the fee itself, and only there |
| `SenderMempools.GeometricGrowth` | voltaire_bundler/bundler/mempool/sender_mempool.py:70-123 | with the rounding as computed, and for every sequence of submissions to a pool: a pooled nonce stays pooled and k replacements take each of its two fees f of at least five to f' with 20^k f' >= 21^k f, without bound on the fees |
| `Binary64.ComputedBump` | voltaire_bundler/bundler/mempool/sender_mempool.py:121-123 | as computed in binary64 and for every fee however large: the required fee is at least 21/20 of the fee if and only if the fee is zero or at least five, and equal to it if and only if below five |
| `Binary64.RoundsExactly` | voltaire_bundler/bundler/mempool/sender_mempool.py:121-123 | rounding the binary64 quotient gives the exact half-even result for every fee with 1.1 fee below 2^50 |
| `Binary64.RoundsDifferently` | voltaire_bundler/bundler/mempool/sender_mempool.py:121-123 | beyond that it need not: for a fee of 1023545369856934 the computed fee is one more than the exact one |
| `Binary64.HundredthsBound` | voltaire_bundler/bundler/mempool/sender_mempool.py:121-123 | below 2^53 the two roundings together are off by at most one, and by at most a half on tenths with three binary places to spare |
| `SenderMempools.NonceStaysPooled` | voltaire_bundler/bundler/mempool/sender_mempool.py:26-94 | a submission leaves a pooled nonce with the operation it had, or with the submitted one if that could replace it |
| `SenderMempools.AfterOk` | voltaire_bundler/bundler/mempool/sender_mempool.py:26-94 | a submission keeps a pool to its own sender and to pairwise different nonces |
| `SenderMempools.AfterConserves` | voltaire_bundler/bundler/mempool/sender_mempool.py:26-94 | the pool changes by the newcomer and, if it replaces, by the one operation it replaces; ignored and refused submissions change nothing |
| `SenderMempools.AfterKeepsOrder` | voltaire_bundler/bundler/mempool/sender_mempool.py:26-94 | an entry that is not replaced keeps its index or moves one place towards the front |
| `SenderMempools.UnstakedBound` | voltaire_bundler/bundler/mempool/sender_mempool.py:26-68 | an unstaked submission leaves at most the former size or at most four |
| `SenderMempools.PutNew` | voltaire_bundler/bundler/mempool/sender_mempool.py:60-63 | dictionary assignment of a new key appends |
| `SenderMempools.DelAt` | voltaire_bundler/bundler/mempool/sender_mempool.py:83-89 | dictionary deletion removes one position and keeps the order of the rest |
| `SenderMempools.OverwriteLoses` | voltaire_bundler/bundler/mempool/sender_mempool.py:57-63 | without the assumption on hashes: an admission conserves the pool's operations if and only if no entry it keeps has the newcomer's hash; otherwise exactly the overwritten operation is lost |
| `SenderMempools.SenderMempool.HashWithSameNonce` | voltaire_bundler/bundler/mempool/sender_mempool.py:125-135 | the hash of the first entry with the nonce, or none if there is none |
| `SenderMempools.SenderMempool.ReplaceUserOperation` | voltaire_bundler/bundler/mempool/sender_mempool.py:70-94 | succeeds exactly if both fees reach the computed minimum; then the old entry is gone and the new one last, otherwise nothing changes |
| `SenderMempools.AdmitsExactly` | voltaire_bundler/bundler/mempool/sender_mempool.py:26-94 | the same of the model's outcome and pool, for every pool, whatever nonces it holds |
| `SenderMempools.SenderMempool.AddUserOperation` | voltaire_bundler/bundler/mempool/sender_mempool.py:26-68 | on the pool itself, with four as the limit: a new nonce is stored last if and only if the sender is staked or has fewer; a pooled nonce is replaced, the newcomer last and the old entry gone, if and only if the sender is staked or has at most four and both fees reach eleven tenths as computed; an exception if and only if a new nonce meets exactly four unstaked or only the fees fall short; silently nothing otherwise |
| `SenderDirectory.PoolForSet` | voltaire_bundler/bundler/mempool/mempool_manager.py:162-177 | storing one sender's pool is read back for that sender and changes no other |
| `SenderDirectory.PooledSet` | voltaire_bundler/bundler/mempool/mempool_manager.py:162-177 | the multiset of pooled operations changes by the difference of the two pools |
| `SenderDirectory.PoolForRemove` | voltaire_bundler/bundler/mempool/mempool_manager.py:326-327 | deleting a sender's pool changes no other pool |
| `BundleSending.SendConserves` | voltaire_bundler/bundler/bundle/bundle_manager.py:202-333 | for every sequence of replies, each operation of the bundle ends up kept, sent or dropped, once |
| `BundleSending.SendDecided` | voltaire_bundler/bundler/bundle/bundle_manager.py:202-333 | closed form of the recursion: the bundles tried one after the other, each without the operation that failed, and the one deciding reply that settles what is sent, what is requeued (only on the first attempt), the multiplier and whether an exception is raised |
| `BundleSending.SendMultiplier` | voltaire_bundler/bundler/bundle/bundle_manager.py:251-333 | the multiplier stays a multiple of ten in 100..210, is reset by a success, lowered by nothing else and raised by ten by a requeue |
| `BundleSending.IncludeOpsGains` | voltaire_bundler/bundler/bundle/bundle_manager.py:320-346 | every entity gains one inclusion for each time a sent operation names it as sender, factory or paymaster, is created only then, and is otherwise as it was |
| `BundleSending.BundlerManager.Enqueue` | voltaire_bundler/bundler/bundle/bundle_manager.py:90-98 | a collected bundle goes behind what its entrypoint's queue holds |
| `BundleSending.BannedAreBlamed` | voltaire_bundler/bundler/bundle/bundle_manager.py:215-232 | banned are exactly the entities that some failed attempt's operation names in the role its reason blames |
| `BundleSending.BundlerManager.SendBundle` | voltaire_bundler/bundler/bundle/bundle_manager.py:100-333 | recursing on the list it shortens in place, it computes the model's send: what is returned or left in the queue by an exception, multiplier, other queues untouched. Over the whole recursion an entity's record becomes 100 seen and none included, plus its inclusions, if and only if some failed attempt blames it: AA3 the paymaster if there is one, otherwise AA2 the sender, otherwise AA1 the factory; every other entity changes only by inclusions |
| `BundleSending.BundlerManager.SendNextBundle` | voltaire_bundler/bundler/bundle/bundle_manager.py:77-88 | entrypoint after entrypoint with one shared multiplier; an exception if and only if the deciding reply of some entrypoint's bundle raises one, and it leaves the later queues alone (`Runs.SendNextIsRun` ties the result to runs) |
| `BundleSending.BundlerManager.UpdateIncludedStatus` | voltaire_bundler/bundler/bundle/bundle_manager.py:335-346 | every entity is included once for each of the roles sender, factory and paymaster it has in the operation, and no other record changes |
| `Reputation.StatusBands` | voltaire_bundler/bundler/reputation_manager.py:102-118 | with d = seen - 10 included: OK if and only if d <= 109, banned if and only if d >= 510 |
| `Reputation.BackoffsNeverBan` | voltaire_bundler/bundler/reputation_manager.py:56-65 | no number of backoffs alone turns an entity that is not banned into a banned one |
| `Reputation.BackoffKeepsOk` | voltaire_bundler/bundler/reputation_manager.py:56-65 | a backoff keeps an OK entry OK if and only if included is a multiple of 24 or 23 d < 2400 + 10 (included mod 24) |
| `Reputation.BackoffCanThrottle` | voltaire_bundler/bundler/reputation_manager.py:56-65 | 119 seen and 1 included is OK and throttled one backoff later |
| `Reputation.IdleEntriesDisappear` | voltaire_bundler/bundler/reputation_manager.py:56-65 | an idle entry is deleted within max(seen, included) backoffs, and at least one |
| `Reputation.DecayBounds` | voltaire_bundler/bundler/reputation_manager.py:56-65 | one backoff takes a twenty-fourth, rounded up, and so shrinks every positive counter |
| `Reputation.BanMeansOk` | voltaire_bundler/bundler/reputation_manager.py:91-94 | after `ban_entity` the status is OK, and stays so exactly until ten more operations were seen |
| `Reputation.ReputationManager.UpdateSeenStatus` | voltaire_bundler/bundler/reputation_manager.py:75-81 | one more seen for this entity, created if missing; no other entry changes |
| `Reputation.ReputationManager.UpdateIncludedStatus` | voltaire_bundler/bundler/reputation_manager.py:83-89 | one more included for this entity, created if missing; no other entry changes |
| `Reputation.ReputationManager.BanEntity` | voltaire_bundler/bundler/reputation_manager.py:91-94 | stores the fixed entry of 100 seen and none included |
| `Reputation.ReputationManager.BackoffCronJob` | voltaire_bundler/bundler/reputation_manager.py:56-65 | decaying in place and deleting afterwards is one backoff of every entry: decayed, and gone exactly if both counters reach zero |
| `Tracer.BundlerCollectorTracer.Step` | voltaire_bundler/utils/BundlerCollectorTracer.js:65-171 | after every step the levels, counters, preimages, last opcode and call records are those that everything seen determines |
| `Tracer.BundlerCollectorTracer.Enter` | voltaire_bundler/utils/BundlerCollectorTracer.js:33-51 | the same when a call begins: one record, with the first ten characters of the input |
| `Tracer.BundlerCollectorTracer.Exit` | voltaire_bundler/utils/BundlerCollectorTracer.js:52-58 | the same when a call ends: one record, with the first thousand characters of the output |
| `Tracer.RunTracer` | voltaire_bundler/utils/BundlerCollectorTracer.js:33-171 | so they are after every sequence of steps and calls |
| `Tracer.LevelStep` | voltaire_bundler/utils/BundlerCollectorTracer.js:117-144 | one step below the top-level call moves the counters of its level from the counts of the trace before it to those of the trace with it |
| `Tracer.TopStep` | voltaire_bundler/utils/BundlerCollectorTracer.js:103-115 | a step of the top-level call opens the level of its NUMBER count if it is new, and changes no count |
| `Tracer.NothingWithoutLevel` | voltaire_bundler/utils/BundlerCollectorTracer.js:103-115 | a level that was never opened has nothing to count |
| `OpcodeRules.CheckIsTheRules` | voltaire_bundler/bundler/validation_manager.py:419-482 | on what the tracer collected, the check allows if and only if the trace has three parts, no banned opcode and no GAS without a call in them, and CREATE2 at most once in the first and never in the other two |
| `OpcodeRules.TraceAndCheck` | voltaire_bundler/bundler/validation_manager.py:419-459 | tracer and check together decide that predicate on every trace, and fail exactly if a part is missing |
| `OpcodeRules.BannedInLevel` | voltaire_bundler/bundler/validation_manager.py:461-482 | a banned name is among a level's counters if and only if a step of the level uses it, or reveals a GAS without a call |
| `OpcodeRules.CreatesInLevel` | voltaire_bundler/bundler/validation_manager.py:461-482 | CREATE2 is counted, or counted twice, if and only if one, or two different, steps of the level execute it |
| `OpcodeRules.BannedAreCounted` | voltaire_bundler/utils/BundlerCollectorTracer.js:121-130 | no banned opcode is among those the tracer leaves out |
| `StorageAccess.CheckIsTheRule` | voltaire_bundler/bundler/validation_manager.py:339-417 | on what the tracer recorded for a level, acceptance is the rule on every load and store of that level in the trace |
| `StorageAccess.ValidateEntityStorageAccess` | voltaire_bundler/bundler/validation_manager.py:339-417 | the loops accept if and only if every recorded access is allowed: sender and entrypoint storage; unstaked only sender-associated slots without init code; staked also entity-associated slots and its own storage |
| `StorageAccess.ParseEntitySlots` | voltaire_bundler/bundler/validation_manager.py:606-624 | every entity gets exactly the hashes of the preimages that contain its padded address; without preimages there is no entry at all |
| `StorageAccess.UpdateCurrentEntitySlot` | voltaire_bundler/bundler/validation_manager.py:709-721 | adds the hash of a matching preimage once, and nothing else |
| `StorageAccess.IsSlotAssociatedWithAddress` | voltaire_bundler/bundler/validation_manager.py:519-541 | the slot is the padded address as text or among the 18 slots from one of the hashes |
| `StorageAccess.AcceptanceMonotone` | voltaire_bundler/bundler/validation_manager.py:339-417 | an accepted access map stays accepted with a stake, with more preimages and with fewer accesses |
| `StorageAccess.MayTouchMonotone` | voltaire_bundler/bundler/validation_manager.py:339-417 | the same for a single access |
| `StorageAccess.SearchIsPrefixTest` | voltaire_bundler/bundler/validation_manager.py:709-721 | in a preimage's text the substring search finds the padded address if and only if it is a prefix |
| `StorageAccess.TracedSlots` | voltaire_bundler/bundler/validation_manager.py:519-541 | a traced slot parses to the number on the stack and never equals the padded address as text |
| `StorageAccess.AssociatedIsDerived` | voltaire_bundler/bundler/validation_manager.py:519-541 | for traced slots association means: among the 18 slots from the hash of a preimage that starts with the padded address |
| `ValidationRules.OpcodeRulesAre` | voltaire_bundler/bundler/validation_manager.py:419-482 | the opcode rules by the book (fifteen names, GAS only before a call, CREATE2 once and only in the first part; parts counted by the NUMBERs so far) are the rules the check decides |
| `ValidationRules.StorageRulesAre` | voltaire_bundler/bundler/validation_manager.py:339-417 | the storage rules by the book (18 slots from a hash of a text that starts with the address behind 24 zeros, stake and delay above one, more than two bytes of init code) are the rules the check decides |
| `CallForests.ForestRecords` | voltaire_bundler/utils/BundlerCollectorTracer.js:33-58 | the records the tracer keeps of a forest of calls are, in order, an entry and an exit of each call around those inside it |
| `TraceValidation.ContextRuleOnForest` | voltaire_bundler/bundler/validation_manager.py:302-327 | on calls as they happen: the last to end among the calls to the paymaster, no CREATE, with an input that starts with 0xf465c77e, returned at most 194 characters, or stake and delay are above one; the call is missing if and only if there is no such call |
| `TraceValidation.ValidateTraceResults` | voltaire_bundler/bundler/validation_manager.py:237-337 | end to end from what happens to the verdict. For every forest of calls with steps between them, closed by the end of the top-level call, accepted if and only if the three parts exist and the opcode, storage and context rules hold, in the rules' own numbers and names and on the fields of steps and calls; crashes if and only if a part is missing, or all else holds and the paymaster was never asked. For any other list of happenings the same in terms of the records |
| `TraceValidation.ContextRuleOnCalls` | voltaire_bundler/bundler/validation_manager.py:302-327 | for a well-nested forest of calls the context rule means: the last frame that calls the paymaster's validation method returned at most 194 characters, or the paymaster is staked |
| `TraceValidation.CheckEntity` | voltaire_bundler/bundler/validation_manager.py:272-281 | one entity's check decides its storage rule on its part of the trace |
| `CallStack.ParseCallStack` | voltaire_bundler/bundler/validation_manager.py:626-684 | for every list of records, the stack loop yields the finished calls and the last call of the paymaster's validation method |
| `CallStack.ForestRecovered` | voltaire_bundler/bundler/validation_manager.py:626-684 | whatever is open and whatever follows, a well-nested forest of calls comes back as its post-order, each exit paired with its own enter |
| `CallStack.ValidationRecovered` | voltaire_bundler/bundler/validation_manager.py:626-684 | with the exit of the top-level call, the result is the post-order and that call |
| `CallStack.PaymasterCallIsLastFrame` | voltaire_bundler/bundler/validation_manager.py:652-670 | the paymaster's call is the last frame in post-order that calls its validation method and is no CREATE; none if and only if no frame does |
| `CallStack.NeverReverted` | voltaire_bundler/bundler/validation_manager.py:636-684 | for every list of records, well-nested or not, no call is ever marked as reverted |
| `LruTimeCache.RunCharacterized` | voltaire_p2p/p2p_network/lru_cache/src/time.rs:36-161 | after every history of calls with a monotone clock the queue is sorted, free of duplicates, and holds exactly the keys last mentioned by an insertion that no later purge found expired |
| `LruTimeCache.FreshMeans` | voltaire_p2p/p2p_network/lru_cache/src/time.rs:139-161 | what the calls below call fresh: some call inserted the key at t with t + ttl after now, and no later call mentions it |
| `LruTimeCache.PurgedMembership` | voltaire_p2p/p2p_network/lru_cache/src/time.rs:139-161 | right after a purge, membership depends on the last mention of the key alone, however many purges ran before |
| `LruTimeCache.LastTouch` | voltaire_p2p/p2p_network/lru_cache/src/time.rs:36-136 | finds the insertion that is the last call to mention a key, or tells that every insertion was followed by another mention |
| `LruTimeCache.UnexpiredFront` | voltaire_p2p/p2p_network/lru_cache/src/time.rs:139-155 | on a sorted queue, stopping at the first unexpired element is the same as filtering all |
| `LruTimeCache.DropAtPosition` | voltaire_p2p/p2p_network/lru_cache/src/time.rs:66-80 | removing the found position is the same as filtering by key |
| `LruTimeCache.LRUTimeCache.RawInsert` | voltaire_p2p/p2p_network/lru_cache/src/time.rs:36-62 | true if and only if the history left the key absent; set and queue are those of the longer history |
| `LruTimeCache.LRUTimeCache.RawRemove` | voltaire_p2p/p2p_network/lru_cache/src/time.rs:66-80 | true if and only if the key was present; set and queue are those of the longer history |
| `LruTimeCache.LRUTimeCache.RemoveExpired` | voltaire_p2p/p2p_network/lru_cache/src/time.rs:83-103 | returns exactly the keys that were present and have expired, each once, oldest first |
| `LruTimeCache.LRUTimeCache.Insert` | voltaire_p2p/p2p_network/lru_cache/src/time.rs:109-136 | true if and only if the key was not last inserted less than the lifetime before the purge |
| `LruTimeCache.LRUTimeCache.Update` | voltaire_p2p/p2p_network/lru_cache/src/time.rs:139-155 | leaves exactly the keys last mentioned by an insertion whose lifetime goes on |
| `LruTimeCache.LRUTimeCache.Contains` | voltaire_p2p/p2p_network/lru_cache/src/time.rs:158-161 | true if and only if the last mention of the key was an insertion at t with t + ttl after now |
| `PreVerificationGas.EstimateThenSubmit` | voltaire_bundler/bundler/gas_manager.py:359-373 | submitting an operation with the three estimated values is refused for too little pre-verification gas if and only if the new signature, as priced, is dearer than the one estimated with |
| `PreVerificationGas.EstimateCoversSignature` | voltaire_bundler/bundler/gas_manager.py:62-113 | estimated without pre-verification gas and with a signature under 65 bytes, every signature of at most 65 bytes passes, unless the verification gas limit itself is above the maximum |
| `PreVerificationGas.LongerSignatureIsDearer` | voltaire_bundler/bundler/gas_manager.py:504-542 | beyond that the promise fails: 66 non-zero bytes are dearer than any 65 |
| `PreVerificationGas.GasFormula` | voltaire_bundler/bundler/gas_manager.py:468-542 | 4 per zero byte and 16 per other byte of the packed operation, 39300, and 4 per word; packed with 21000 for the pre-verification gas and 65 bytes of one for a shorter signature |
| `PreVerificationGas.EstimateGas` | voltaire_bundler/bundler/gas_manager.py:62-113 | overwriting the operation's limits as it goes: call and verification gas limit are the first and the second answer of the simulation if zero was given and the given value otherwise, a given pre-verification gas comes back unchanged, and a missing one is priced for the operation with the returned limits |
| `PreVerificationGas.GasSplits` | voltaire_bundler/bundler/gas_manager.py:468-542 | the gas of an operation is a part that does not depend on signature and pre-verification gas plus the cost of the priced signature |
| `PreVerificationGas.DummyIsDearest` | voltaire_bundler/bundler/gas_manager.py:504-517 | no signature of at most 65 bytes costs more than the dummy |
| `PreVerificationGas.SignatureCost` | voltaire_bundler/bundler/gas_manager.py:519-542 | the cost of a signature of 65 to 95 bytes, byte by byte and word by word |
| `AbiPacking.WordReadable` | voltaire_bundler/user_operation/user_operation_handler.py:317-359 | every number can be read back from its own slot of the packed operation |
| `AbiPacking.BytesReadable` | voltaire_bundler/user_operation/user_operation_handler.py:317-359 | every byte string can be read back by following the offset in its slot to its length and contents |
| `AbiPacking.EncodeLast` | voltaire_bundler/user_operation/user_operation_handler.py:317-359 | the signature's tail ends the packed operation and nothing in front of it depends on it |
| `AbiPacking.TailsInWords` | voltaire_bundler/user_operation/user_operation_handler.py:317-359 | the packed byte strings take a whole number of words, one for each length and enough for each content |
| `UserOperationCodec.EntitiesAreMeant` | voltaire_bundler/user_operation/user_operation.py:139-151 | on the JSON text: with digits d behind the prefix, the factory is 0x and the lower-case of the first forty if there are more than forty, and none otherwise; the same for the paymaster |
| `UserOperationCodec.FieldsAreMeant` | voltaire_bundler/user_operation/user_operation.py:30-68 | each of the eleven fields is what the text under its own name means: null and a bare prefix are zero, digits are their number, bytes print as the text in lower case |
| `UserOperationCodec.AcceptedExactly` | voltaire_bundler/user_operation/user_operation.py:30-199 | an object is accepted if and only if it has exactly the eleven names, an address text as sender, and a text of its kind under every other name |
| `UserOperationCodec.RoundTrip` | voltaire_bundler/user_operation/user_operation.py:30-123 | constructing from the printed JSON gives back all eleven fields and the derived factory and paymaster |
| `UserOperationCodec.PrintNormalises` | voltaire_bundler/user_operation/user_operation.py:30-123 | whatever the constructor accepts is well formed and printing it gives an object that stands for the same operation |
| `UserOperationCodec.ExactlyTheFields` | voltaire_bundler/user_operation/user_operation.py:70-93 | an object is accepted only with exactly the eleven names |
| `UserOperationCodec.UintRoundTrip` | voltaire_bundler/user_operation/user_operation.py:165-180 | every integer, however large, is read back from its printed form |
| `UserOperationCodec.BytesRoundTrip` | voltaire_bundler/user_operation/user_operation.py:183-199 | every byte string is read back from its printed form |
| `Hex.ParseIntAnyCase` | voltaire_bundler/user_operation/user_operation.py:165-180 | upper-case and lower-case digits are read alike |
| `Hex.BytesOfText` | voltaire_bundler/user_operation/user_operation.py:183-199 | the bytes read from a text print as that text in lower case and without its white space |
| `HashQueries.GetUserOperationsHashesWithMempoolId` | voltaire_bundler/bundler/mempool/mempool_manager.py:331-365 | the page of the filtered hash list, in dictionary order, and a cursor that counts exactly the full pages behind it |
| `HashQueries.HashesOnPages` | voltaire_bundler/bundler/mempool/mempool_manager.py:331-365 | a hash is on some page if and only if an operation pooled under it lists the mempool |
| `HashQueries.PagesAreTheList` | voltaire_bundler/bundler/mempool/mempool_manager.py:331-365 | the first n pages together are the front of the list, without gap or overlap and finally all of it; a page has at most 4096 entries |
| `HashQueries.NextCursorIs` | voltaire_bundler/bundler/mempool/mempool_manager.py:350-365 | page k behind the returned one is full if and only if k is at most the cursor away; 0 beyond the end |
| `HashQueries.FollowingMissesPartialPage` | voltaire_bundler/bundler/mempool/mempool_manager.py:331-365 | following the cursor page by page sees everything if and only if the list is shorter than a page or fills its pages |
| `HashQueries.FirstPageIsAll` | voltaire_bundler/bundler/execution_endpoint.py:525-545 | the first page, the only one ever asked for, is the whole list if and only if that has at most 4096 hashes |
| `HashQueries.WireRoundTrip` | voltaire_bundler/bundler/mempool/mempool_manager.py:346-348 | a hash survives the conversion to bytes in a page and back in a request |
| `HashQueries.GetUserOperationsByHashes` | voltaire_bundler/bundler/mempool/mempool_manager.py:367-392 | returns every entry of a requested hash and nothing else; found and remaining hashes divide up the request |
| `HashQueries.PooledUserOpsByHash` | voltaire_bundler/bundler/execution_endpoint.py:547-563 | over the mempools of all entrypoints, a requested hash is answered if and only if it is pooled somewhere, from the first mempool that has it and as often as it is pooled there: once if and only if not two spellings of one account both have it; nothing else is returned |
| `HashQueries.PooledOnce` | voltaire_bundler/bundler/mempool/mempool_manager.py:162-177 | in a reachable mempool a hash is pooled at most once if and only if not two spellings of one account both have it |
| `HashRequests.AnnouncedInOrder` | voltaire_bundler/bundler/execution_endpoint.py:270-289 | after every interleaving of announcements and requests, what a peer announced is, in order, what was asked for or dropped followed by what is queued |
| `HashRequests.StepDrops` | voltaire_bundler/bundler/execution_endpoint.py:270-289 | a refused connection drops the whole queue, the end of a request drops what was announced after its bytes were written, and no other step drops anything |
| `HashRequests.DroppedExactlyWhenDisturbed` | voltaire_bundler/bundler/execution_endpoint.py:270-289 | over every run, every announced hash is asked for or still to be asked for if and only if no connection was refused and nothing was announced while the bytes of a request were being taken |
| `HashRequests.AskedForIs` | voltaire_bundler/bundler/execution_endpoint.py:270-289 | one request with its waits in closed form: asked for is what was queued when the bytes were written, dropped what came later, or all of it if the connection is refused |
| `HashRequests.HashRequester.Receive` | voltaire_bundler/bundler/execution_endpoint.py:525-545 | a response appends its hashes to its peer's queue, opens a queue for a new peer, touches no other, and leaves every cursor at zero |
| `HashRequests.HashRequester.AskFor` | voltaire_bundler/bundler/execution_endpoint.py:270-289 | sends the queue as it is when the connection stands, clears it when the bytes are taken, and does to the peer what its steps amount to; other peers only gain what they announce |
| `HashRequests.HashRequester.AskAll` | voltaire_bundler/bundler/execution_endpoint.py:270-289 | one pass raises if and only if a new peer announced during it; otherwise everything announced before the pass has left its queue |
| `Spellings.AdmissionKeepsUnique` | voltaire_bundler/bundler/mempool/mempool_manager.py:162-177 | where no hash is pooled twice, an admission keeps it so if and only if it does not store its operation while another spelling of the sender has the hash |
| `Spellings.ReachableUnique` | voltaire_bundler/bundler/mempool/mempool_manager.py:162-177 | after every run in which the admitted operations spell each account in one way, no hash is pooled twice |
| `Spellings.SpellingsPooledTwice` | voltaire_bundler/bundler/mempool/mempool_manager.py:162-177 | for any two spellings: submitting an operation once in each pools its hash twice |
| `Spellings.SpellingsExist` | voltaire_bundler/user_operation/user_operation.py:154-162 | two spellings of one account that are both accepted as addresses |
| `Spellings.SpellingsBundledTwice` | voltaire_bundler/bundler/mempool/mempool_manager.py:303-329 | for any two spellings: a round can bundle the operation twice, with one account and one nonce |
| `Spellings.PoppedAccountsExactly` | voltaire_bundler/bundler/mempool/mempool_manager.py:303-314 | whatever arrives meanwhile, a round that starts without empty pools pops no account twice if and only if no two keys of its snapshot are spellings of one account |
| `Spellings.PoppedAccounts` | voltaire_bundler/bundler/mempool/mempool_manager.py:303-314 | the one direction also with empty pools in the snapshot |
| `Spellings.PoppedTwice` | voltaire_bundler/bundler/mempool/mempool_manager.py:303-314 | the other: two keys of one account that both had operations are both popped |
| `Spellings.BundledAccounts` | voltaire_bundler/bundler/mempool/mempool_manager.py:316-327 | a bundle has no account twice if and only if of any two popped operations of one account at least one had changed code |

## Left out

- Node RPC, HTTP, signing, metrics and logging: their replies are parameters.
- The peer-to-peer router, service, address translation and inter-process messages.
- The search loop for the call gas limit and the decoding of simulation results.
- Keccak, the ABI library's own checks (values that do not fit their type, checksummed addresses) and the hash of an operation.
- Gas price tolerance, mempool id tables, command line and configuration.
- Reputation set by the debug call `set_reputation`, which could store negative counters.
- The gas limits and fees that `send_bundle` computes for the transaction, and the encoding of the bundle call; replies are classified into kinds.
- The parts of the tracer that no check reads: logs, debug records, contract sizes, out-of-gas marks; and which contracts' code is hashed.
- The list of hashes to publish by gossip, and the operation look-up by hash over RPC.
- Overlap of a debug-triggered bundle or reset with a running round.
- JSON texts: a decoded object is a map of fields. Integer texts have ASCII digits, underscores and white space; other digits that Python's `int()` takes are not modelled.
- MempoolManagers.MempoolManager.Interrupt: the arrivals are the admissions that reach their commit; a reputation gate that runs while a round is suspended is not among the interruptions of the loop; it is a step of its own in `Lifecycle`.
- MempoolManagers.MempoolManager.AddUserOperation: the checks before the commit (gas, fees, validation) are not part of the contract; the operation that reaches the commit is arbitrary.
- StorageAccess.CheckIsTheRule: memory texts are hexadecimal with their prefix, as the tracer prints them.
- HashQueries.GetUserOperationsHashesWithMempoolId: pages hold hashes as text; `WireRoundTrip` covers their byte form.
- SenderMempools.CalculateMinFeeToReplace: overflow of the binary64 exponent, beyond 2^1023, is not modelled; packed fees have 256 bits.
- Cron.UpdateSendQueue: arrivals during a round are those of the manager whose round waits. Admissions at the other entrypoints meanwhile are interleaved in `Runs` and not in this method.
- Cron.CronTurn: the peer-to-peer part of the turn is in `HashRequests`; the heartbeat and the sleeps are not modelled.
- HashRequests.HashRequester.AskFor: a connection stands or is refused. Other connection errors end the cron loop and are not modelled.
- PreVerificationGas.GetPreVerificationGas: with the default coefficient and addend, which are the only ones used, and without the L1 parts, which are commented out.
