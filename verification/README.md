# A verified model of the proof marketplace

A user locks ether in an escrow contract for a computation; a coordinator offers the job over a gossip
network; the first worker to claim it proves the computation in a zkVM and settles the job on chain; an
indexer brings the coordinator's view back in line with the chain. This project models the five parts and
their composition, and proves what holds over every call tree, every run and every interleaving.

| module | models | main results |
|---|---|---|
| `Core` | shared types | |
| `Guest` | the zkVM guest and the two parsers of its journal | `Fibonacci`, `InputBytes`, `GuestRoundTrip` |
| `Escrow` | `JobRegistry.sol`, with re-entrant callees and rolled-back frames | `ReentrancySafe`, `SingleSettlement`, `ExecSerial`, `HistorySerial`, `EtherConserved`, `AcceptedProofPays`, `ExpiryRefunds` |
| `Jobs` | the job table, its status updates, snapshots | `StatusClosedForm`, `StatusConfluent`, `SnapshotRoundTrip` |
| `Indexer` | the polling event reader | `PollsApplyKnown`, `IndexerRefinesFold`, `IndexerAgreesWithContract` |
| `Reconcile` | the indexer's polls interleaved with every other writer of the table | `PollsReconcile`, `IndexerReconciles`, `StaleForGood` |
| `Worker` | worker status and the proving task | `StatusAndTaskAgree`, `NoUnexpectedState` |
| `Coordinator` | claim arbitration, completion, creation, rebroadcast | `FirstClaimWins` |
| `Protocol` | contract, coordinator, indexer and workers over a network that loses, repeats and reorders | `ProvingIsExclusive`, `ExclusiveIffDistinct`, `PayloadsAgree`, `RevertedSubmissionOffered`, `HonestProofAccepted`, `NeverAheadOfChain`, `StatusRegressesOnlyOnInsert` |
| `Star` | the claim protocol over FIFO connections, with broadcasts that are not atomic | `WinnerProves`, `EveryWinnerStarts`, `WinnersStartIff` |
| `Drain` | how the claim protocol comes to rest without new offers | `MeasureDecreases`, `OffersSettle`, `IdleAtRestIff` |
| `Lru` | the deduplication cache | `TouchFollowsHistory`, `CachedIff`, `MissNeedsGap` |
| `Gossip` | a gossip node, envelopes and their signatures | `GossipNode.ProcessIncoming` |
| `Flood` | a network of gossip nodes with any traffic | `FloodBound`, `WeightDecreases`, `EnvelopeLineage`, `DeliveredAsBroadcast`, `PublishesIff` |
| `Reach` | floods of an id that is never evicted, whatever becomes of others | `ReachIsABall`, `OncePerNodeBound`, `NeverEvictedIff`, `PublishedWithinBall` |
| `HopOrder` | a run in which one copy out of hop order loses a node | `HopOrderMatters` |
| `Hub` | floods over the star the workers form with the coordinator | `StarDelivers`, `FloodCarriesStar` |

Objects the program updates in place (`JobRegistry`, `JobTable`, `AppState`, `Indexer`, `Worker`, `SeenCache`,
`GossipNode`) are classes. Each method's contract gives the new state as a function of the old one, and says
beside it, without that function, what changes and when. The steps of `Protocol`, `Star` and `Reconcile` apply
the same functions; a tick of the rebroadcaster is one step per offer there. The steps of `Flood` and `Reach` are tied to `GossipNode` by `Flood.BroadcastRunsNode` and
`Flood.ProcessRunsNode`.

How the parts are read:

- A contract call is a finite tree. A callee may call any function again, to any depth; a frame that reverts
  (a registry function, or a frame of any other contract) takes back its state, ether and events
  (`Exec`, and over histories `HistorySerial`). `SHA-256` and the proof verifier are arbitrary functions
  fixed at deployment.
- `completed[id]` means settled: `expireJob` sets it too.
- A coordinator may run without a contract; `Protocol` covers both. `create_job` inserts without looking
  whether the id is taken. That ids are fresh is a hypothesis only of the claims that need it
  (`ExclusiveIffDistinct`), and `ContractKeepsIdsFresh` discharges it when submissions succeed: the contract
  refuses an id it has seen.
  An insert can still land on a placeholder the indexer made in the meantime; `OvertakenCreateSetsBack` is such
  a run, and `StatusRegressesOnlyOnInsert` shows it is the only way a status moves back. Whether the indexer
  repairs such an entry is settled by `Reconcile`: it does not, once it has read the settlement event.
- The chain client returns `Ok` for any receipt, also one that reverted, and so does the model. Payloads agree
  exactly in the runs whose submissions met the contract's guards or found their record there
  (`PayloadsAgree`); every other submission yields a run in which they do not (`RevertedSubmissionOffered`).
- The indexer makes up a completed job for an unknown id (`crates/indexer/src/lib.rs:193-207`), although
  `crates/indexer/tests/indexer_tests.rs:130-133` expects it not to. `crates/methods/tests/guest_tests.rs:11-16`
  describes an older journal. The model follows the code in both cases.
- Anybody may transact with the contract and may broadcast claims, completions and rejections; only the
  coordinator offers jobs and accepts claims, and worker ids are distinct.
- A max_ttl of 0 behaves like 1, so the radius of the ball and the number of powers summed are max(1, max_ttl).

## Model

| member | source | states |
|---|---|---|
| Guest.Fibonacci | crates/methods/guest/src/main.rs:36-54 | the wrapping 64-bit loop returns the n-th Fibonacci number modulo 2^64, for every 64-bit n |
| Guest.FibAddition | crates/methods/guest/src/main.rs:44-50 | the Fibonacci numbers obey the addition law, which with the first two fixes them |
| Guest.ReadInput | crates/methods/guest/src/main.rs:14-20 | the little-endian bytes of the number read are the first eight of the payload followed by zeros, for any payload, long or short |
| Guest.InputBytes | crates/methods/guest/src/main.rs:14-20 | a 64-bit number whose eight bytes are the zero-padded start of the payload |
| Guest.LittleEndianSplit | crates/methods/guest/src/main.rs:15 | one byte is worth its value, and bytes that follow k others 256^k times as much |
| Guest.RunGuest | crates/methods/guest/src/main.rs:11-34 | the committed bytes are the job id, the payload hash and the eight bytes of Fibonacci(n) mod 2^64, for the n whose bytes the payload starts with |
| Guest.LittleEndianOfWord | crates/methods/guest/src/main.rs:23 | decoding an encoded word gives the number back |
| Guest.WordOfLittleEndian | crates/methods/guest/src/main.rs:15 | encoding a decoded word gives the bytes back |
| Guest.ZeroPadding | crates/methods/guest/src/main.rs:17-19 | trailing zeros do not change a little-endian value |
| Guest.DecodeInvertsEncode | crates/prover/src/lib.rs:63-82 | the prover's parser is the two-sided inverse of the journal layout and fails exactly below 64 bytes |
| Guest.ContractAgreesWithProver | contracts/src/JobRegistry.sol:58-69 | the contract accepts a journal exactly when the prover decodes it to this job id and this payload's hash |
| Guest.GuestRoundTrip | contracts/src/JobRegistry.sol:62-66 | both parsers recover what the guest committed, the result stands for Fibonacci(n) mod 2^64 where the zero-padded first eight bytes of the payload stand for n, and the contract accepts it for exactly the matching id and payload hash |
| Guest.ExampleRequest | README.MD:99 | the payload 0a00000000000000 is answered with 55 |
| Escrow.JobRegistry.Submit | contracts/src/JobRegistry.sol:27-45 | which guard fails first, and otherwise exactly the new record, the balance and the event; nothing changes on a revert |
| Escrow.JobRegistry.Prove | contracts/src/JobRegistry.sol:47-82 | which guard fails first, success otherwise if funds suffice and the recipient accepts; the recipient runs with the flag set and the reward gone, the event comes last; nothing changes on a revert |
| Escrow.JobRegistry.Expire | contracts/src/JobRegistry.sol:84-100 | which guard fails first, success otherwise if funds suffice and the owner accepts; the owner runs with the flag set and the reward gone, the event comes last; nothing changes on a revert |
| Escrow.JobRegistry.Transfer | contracts/src/JobRegistry.sol:78-79 | the low-level call succeeds exactly when funds suffice and the callee returns, and otherwise leaves no trace |
| Escrow.JobRegistry.RunCallee | contracts/src/JobRegistry.sol:78 | a callee's calls take effect in order |
| Escrow.JobRegistry.Perform | contracts/src/JobRegistry.sol:27-100 | every kind of call, foreign frames and donations included, has its call-tree meaning; a frame whose callee rejects reverts, and a frame that reverts leaves the registry as it found it |
| Escrow.ExecKeeps | contracts/src/JobRegistry.sol:27-100 | any call tree keeps the invariant: balance, one event and one payout per settled job, payouts of the locked reward in time, refunds to the record's owner, events that report payouts; with the jobs of unfinished frames set apart |
| Escrow.Exec | contracts/src/JobRegistry.sol:78-79 | a frame that reverts leaves no trace of itself or of any call inside it, and it does revert when its callee rejects |
| Escrow.ExecSerial | contracts/src/JobRegistry.sol:27-100 | re-entrancy changes nothing but the order of payouts: any call tree leaves the state that its calls that took effect leave one after the other, in the order they returned, with no call inside another and every guard met in turn |
| Escrow.HistorySerial | contracts/src/JobRegistry.sol:27-100 | the same for whole histories: the log is that of the calls that took effect, each of them left its payout or record, and no payout, record, event or donation goes back to anything else, in particular not to a call inside a reverted frame |
| Escrow.ReentrancySafe | contracts/src/JobRegistry.sol:47-100 | at every boundary of every nested call, also of frames later rolled back, the registry is solvent, pays no job twice and can afford every settlement that passes its guards |
| Escrow.VerdictOf | contracts/src/JobRegistry.sol:27-100 | a call succeeds exactly when its guards pass and its callee returns; TransferFailed means exactly that the recipient refused |
| Escrow.AcceptedProofPays | contracts/src/JobRegistry.sol:54-81 | submitProof is accepted exactly when the job is there, unsettled and in time, the journal names it and its payload hash, the proof verifies and the recipient accepts; it then pays its sender the whole reward, once, and logs sender and result, whatever the recipient does when paid |
| Escrow.ExpiryRefunds | contracts/src/JobRegistry.sol:84-100 | expireJob is accepted exactly when the job is there, unsettled and past its deadline and the owner accepts; the owner then gets the whole reward back, once, and the event is logged |
| Escrow.EtherConserved | contracts/src/JobRegistry.sol:27-100 | over any history, total paid plus balance equals all ether brought by calls that took effect, which is all rewards ever locked plus donations |
| Escrow.SingleSettlement | contracts/src/JobRegistry.sol:32-99 | over any history a job is settled exactly when it has one settlement event and one payout, of its reward: in time to the sender of a call that took effect and brought the verified proof, or after the deadline to the sender of its submission; each record has one matching submission event and never changes |
| Jobs.StatusClosedForm | crates/coordinator/src/gossip_handler.rs:58-80 | any interleaving of claims, completions and expiries ends in the status read off the first completion, else any expiry, else the first claim |
| Jobs.StatusNeverRegresses | crates/coordinator/src/gossip_handler.rs:142-150 | updates never move a status back, and a completed job keeps its hash |
| Jobs.StatusConfluent | crates/indexer/src/lib.rs:176-223 | the kind of the final status does not depend on order or repetition |
| Jobs.EntriesAreIndependent | crates/coordinator/src/gossip_handler.rs:58-150 | over operations on the whole table each entry follows its own updates only and keeps all its other fields |
| Jobs.SaveJobs | crates/coordinator/src/persistence.rs:44-53 | the snapshot lists each entry once, in any order |
| Jobs.LoadJobs | crates/coordinator/src/persistence.rs:17-42 | loading inserts the entries one by one under their own ids, so the last one with an id counts; no readable file gives an empty table |
| Jobs.LastEntryWins | crates/coordinator/src/persistence.rs:36-40 | the restored table holds exactly the last entry for each id in the file |
| Jobs.SnapshotRoundTrip | crates/coordinator/src/persistence.rs:17-53 | save then load restores the table, for any order, exactly when every entry is stored under its own id |
| Jobs.OwnIdsKept | crates/coordinator/src/api.rs:86-96 | insert, placeholder and status updates keep every entry under its own id |
| Indexer.Indexer.HandleJobCompleted | crates/indexer/src/lib.rs:176-208 | completes an existing entry unless it is completed, or inserts the placeholder |
| Indexer.Indexer.HandleJobExpired | crates/indexer/src/lib.rs:210-223 | expires an existing entry unless it is settled, and inserts nothing |
| Indexer.Indexer.ProcessJobCompletedEvents | crates/indexer/src/lib.rs:114-146 | applies the window's completions in order |
| Indexer.Indexer.ProcessJobExpiredEvents | crates/indexer/src/lib.rs:148-174 | applies the window's expiries in order |
| Indexer.Indexer.PollEvents | crates/indexer/src/lib.rs:88-112 | one poll, with a failure at any of its three queries, is the poll function; last_block moves only when all succeed |
| Indexer.SettleAllBySet | crates/indexer/src/lib.rs:114-223 | given one settlement event per job, the table depends only on which events were applied, not on order or repetition |
| Indexer.PollsApplyKnown | crates/indexer/src/lib.rs:88-112 | after any polls, failed ones too, the table is the start with the fully read blocks' events and the early-read completions applied |
| Indexer.IndexerRefinesFold | crates/indexer/src/lib.rs:88-223 | when nothing above last_block was read early, the table is the in-order fold of all events of blocks start+1..last_block, once each |
| Indexer.SuccessCatchesUp | crates/indexer/src/lib.rs:104-109 | a successful poll at the greatest height tried so far reaches that situation |
| Indexer.ContractSettlesOnce | contracts/src/JobRegistry.sol:74-99 | the log of any contract history has one settlement entry per job |
| Indexer.IndexerAgreesWithContract | crates/indexer/src/lib.rs:88-223 | the refinement for the log of any history of contract transactions, cut into blocks in any way |
| Reconcile.PollsReconcile | crates/indexer/src/lib.rs:88-223 | however claims, gossip completions and inserts interleave with polls that may fail, an entry is where the known events applied after everything else would put it, and a settled job is shown as settled, if and only if it was not inserted after its event was read and left alone since |
| Reconcile.IndexerReconciles | crates/indexer/src/lib.rs:88-223 | once the polls have caught up, for the log of any contract history: the table shows what one in-order pass at the end would show, except exactly for those stale entries |
| Reconcile.StaleForGood | crates/indexer/src/lib.rs:104-109 | no later poll repairs a stale entry; only a completion confirmed by another task does |
| Worker.Worker.HandleMessage | crates/worker/src/handler.rs:12-26 | an idle worker claims an offer in time; one that claims a job proves it when told that it won, and is idle after any other answer about it; nothing else has an effect |
| Worker.Worker.HandleJobAvailable | crates/worker/src/handler.rs:28-59 | an idle worker claims an offer that has not expired |
| Worker.Worker.HandleClaimAccepted | crates/worker/src/handler.rs:61-95 | its own acceptance starts a proving task, another's frees the worker |
| Worker.Worker.HandleClaimRejected | crates/worker/src/handler.rs:97-115 | a rejection of the claimed job makes the worker idle, any other leaves it alone |
| Worker.Worker.FinishProving | crates/worker/src/handler.rs:117-151 | a failed proof makes the worker idle and submits nothing, a proof moves it to submitting; in any other state only the task ends |
| Worker.Worker.FinishSubmitting | crates/worker/src/lib.rs:97-157 | a mined proof is announced with its hash, a failed one is not |
| Worker.Worker.TransitionToIdle | crates/worker/src/lib.rs:159-175 | the task's last step, with its fallback branch |
| Worker.StatusAndTaskAgree | crates/worker/src/handler.rs:77-150 | over every interleaving the status says exactly which single task is alive and at what stage |
| Worker.NoUnexpectedState | crates/worker/src/handler.rs:144-147 | the "unexpected state" branches are never taken |
| Worker.ReactProvenance | crates/worker/src/handler.rs:28-95 | a worker only holds jobs it was offered and only proves jobs it was told it won |
| Coordinator.AppState.HandleClaim | crates/coordinator/src/gossip_handler.rs:48-98 | assigns a pending job and accepts, or changes nothing and rejects with the reason, without naming a worker |
| Coordinator.AppState.HandleJobCompleted | crates/coordinator/src/gossip_handler.rs:100-151 | only a completion the chain confirms changes an entry, and only an existing one |
| Coordinator.AppState.CreateJob | crates/coordinator/src/api.rs:48-108 | a job whose submission did not fail is inserted as pending and offered; otherwise nothing happens |
| Coordinator.AppState.RebroadcastPending | crates/coordinator/src/rebroadcast.rs:15-31 | one tick offers each pending job exactly once, as it is in the table |
| Coordinator.FirstClaimWins | crates/coordinator/src/gossip_handler.rs:58-95 | after any claims, the next is accepted exactly when its job was pending and unclaimed; the entry then names the claimer |
| Protocol.StepKeepsClaims | crates/coordinator/src/gossip_handler.rs:48-98 | every step keeps the claim protocol's invariant, with or without a contract, whatever the chain does |
| Protocol.BackedStepKeepsPayloads | crates/coordinator/src/rebroadcast.rs:15-31 | every step keeps payloads in agreement with the contract, as long as it backs what is submitted |
| Protocol.ChainStepKeepsSettled | crates/coordinator/src/gossip_handler.rs:100-151 | every step keeps what is shown as settled, and what is about to be, settled on chain |
| Protocol.ProvingIsExclusive | crates/coordinator/src/gossip_handler.rs:58-95 | over a whole run, with or without a contract, at most one worker ever proves or submits a job, only it is ever accepted, and an assigned entry names it |
| Protocol.ReusedIdBreaksExclusion | crates/coordinator/src/api.rs:62-63 | for any created ids of which two are the same there is a run, with or without a contract, that creates exactly these and in which any two workers prove the same job |
| Protocol.ExclusiveIffDistinct | crates/coordinator/src/api.rs:62-96 | all runs that create a given sequence of ids are exclusive exactly when the ids are distinct, or there are not two workers, whatever receipts are worth |
| Protocol.ContractKeepsIdsFresh | contracts/src/JobRegistry.sol:32 | with a contract and submissions that succeed, no id is created twice |
| Protocol.PayloadsAgree | crates/coordinator/src/api.rs:72-102 | throughout a run every job created, offered, held by a worker or still to be offered matches the contract's record, if and only if every submission met the contract's guards or found its record there |
| Protocol.HonestProofAccepted | contracts/src/JobRegistry.sol:54-81 | the guest's journal for a job a worker holds is accepted exactly when the job is unsettled and in time, the verifier passes and the ether is taken; it then pays the sender the offered reward, once, and logs the right result |
| Protocol.SubmissionBacks | crates/contract-client/src/lib.rs:84-89 | a mined submission makes the contract back the job exactly when submitJob's guards held beforehand, or the same record was there |
| Protocol.RevertedSubmissionOffered | crates/contract-client/src/lib.rs:79-89 | after any history, every submission that misses the guards without its record being there leads, when answered with Ok, to an entry and an offer the contract does not back |
| Protocol.NeverAheadOfChain | crates/coordinator/src/gossip_handler.rs:107-150 | what the coordinator shows as completed or expired has its one settlement event on chain |
| Protocol.ReachableSnapshot | crates/coordinator/src/persistence.rs:17-53 | in every reachable state a quiescent snapshot restores the table |
| Protocol.StatusRegressesOnlyOnInsert | crates/coordinator/src/api.rs:96 | a step sets a status back exactly when it inserts a created job over a placeholder |
| Protocol.OvertakenCreateSetsBack | crates/coordinator/src/api.rs:74-96 | a legal run in which that happens, for every job worth creating and every proof the verifier passes |
| Star.StepKeeps | crates/coordinator/src/gossip_handler.rs:58-95 | every step, also half-done broadcasts and stale offers, keeps the queues harmless to winners |
| Star.WinnerProves | crates/worker/src/handler.rs:61-115 | an acceptance queued for its winner finds it claiming, and consuming the queue up to it always moves the worker to proving |
| Star.EveryWinnerStarts | crates/coordinator/src/gossip_handler.rs:58-95 | with no more workers than the fanout, once replies are out and its queue is empty, a worker has started every job assigned to it |
| Star.WinnerIsTold | crates/gossip/src/gossip/mod.rs:157-161 | the picked connections always include the winner's exactly when there are no more workers than the fanout |
| Star.WinnerMayNeverStart | crates/gossip/src/gossip/mod.rs:157-161 | with more workers than the fanout there is a legal run after which a winner, its queue empty and all replies out, never starts in any continuation |
| Star.WinnersStartIff | crates/coordinator/src/gossip_handler.rs:58-95 | winners always start exactly when there are no more workers than the fanout, or a fanout of 0 keeps anybody from winning |
| Drain.MeasureDecreases | crates/worker/src/handler.rs:28-115 | every step but a new offer strictly decreases a measure of queues, claims, unsent messages and tasks; what the chain does leaves it alone |
| Drain.OffersSettle | crates/coordinator/src/gossip_handler.rs:58-95 | after any history, without new offers only a bounded number of steps is left and they can be taken; where none is left everything has been delivered and, with no more workers than the fanout, every winner has started and every worker is idle |
| Drain.ReachableAnswered | crates/worker/src/handler.rs:61-115 | with no more workers than the fanout, whoever waits for an answer has its claim or an answer on the way, so losers get free as well |
| Drain.IdleAtRestIff | crates/gossip/src/gossip/mod.rs:157-161 | all workers are sure to be idle at rest exactly when there are no more of them than the fanout, or a fanout of 0 keeps anybody from claiming |
| Lru.SeenCache.Get | crates/gossip/src/gossip/mod.rs:185-187 | a hit means accessed, with fewer than capacity distinct others since, and counts as an access |
| Lru.SeenCache.Put | crates/gossip/src/gossip/mod.rs:136 | an insertion counts as an access, evicting the least recently used |
| Lru.TouchFollowsHistory | crates/gossip/src/gossip/mod.rs:183-189 | the cache always holds exactly the most recently accessed distinct ids up to capacity |
| Lru.CachedIff | crates/gossip/src/gossip/mod.rs:183-189 | an id is cached exactly when it was accessed and fewer than capacity distinct others were since |
| Lru.MissNeedsGap | crates/gossip/src/gossip/mod.rs:183-191 | an id is delivered again only after at least capacity distinct others since every earlier access |
| Gossip.GossipNode.Broadcast | crates/gossip/src/gossip/mod.rs:126-138 | signs id, origin and payload with the own key, remembers, sends on the picked connections with the full hop budget, and does not deliver to itself |
| Gossip.GossipNode.SendToPeers | crates/gossip/src/gossip/mod.rs:144-171 | sends on every connection but the excluded one, or on fanout distinct ones of them |
| Gossip.SignatureCovers | crates/core/src/gossip.rs:34-53 | an envelope verifies exactly when its signature checks for its origin over id, origin and payload; the hop budget is not covered |
| Gossip.GossipNode.ProcessIncoming | crates/gossip/src/gossip/mod.rs:173-198 | changes nothing when the signature does not check for id, origin and payload; otherwise delivers, and forwards with one hop less to all but the source, exactly on a cache miss in terms of history |
| Flood.BroadcastRunsNode | crates/gossip/src/gossip/mod.rs:126-138 | a broadcast in the network does to its node, and puts on its connections, what the node's method does |
| Flood.ProcessRunsNode | crates/gossip/src/gossip/mod.rs:173-198 | handling a copy in the network does to the node it reaches what the node's method does |
| Flood.WeightDecreases | crates/gossip/src/gossip/mod.rs:173-198 | every step that handles a copy strictly decreases the weight of its broadcast in flight, others leave it alone |
| Flood.FloodBound | crates/gossip/src/gossip/mod.rs:144-198 | a broadcast causes at most fanout + ... + fanout^max_ttl sends and as many handling steps, with any evictions, losses and traffic |
| Flood.EnvelopeLineage | crates/core/src/gossip.rs:34-53 | a copy after h hops is the signed envelope with budget max_ttl - h + 1, came along connections, and its signature still checks |
| Flood.DeliveredAsBroadcast | crates/gossip/src/gossip/mod.rs:126-138 | whatever is sent, in flight or delivered was broadcast, with this payload, by the node named as its origin, and its signature checks |
| Flood.PublishesIff | crates/gossip/src/gossip/mod.rs:183-191 | in any run a node publishes a copy exactly when its signature checks and its id was never accessed there or capacity distinct others were since |
| Reach.OncePerNodeBound | crates/gossip/src/gossip/mod.rs:183-197 | unless its own id is evicted somewhere, a broadcast is sent at most fanout times the number of nodes and published once by each node reached but the origin |
| Reach.NeverEvictedIff | crates/gossip/src/gossip/mod.rs:183-191 | an id is never evicted exactly when no node accesses capacity distinct other ids after its last access to it |
| Reach.PublishedWithinBall | crates/gossip/src/gossip/mod.rs:193-197 | in any run a broadcast is only published within max_ttl hops of its origin |
| Reach.ReachIsABall | crates/gossip/src/gossip/mod.rs:126-198 | for a broadcast whose id is never evicted and whose copies are not lost and processed in hop order, with a fanout for all of the origin's connections and elsewhere for all but the one a copy came over, the publishers are exactly the nodes at distance 1..max_ttl, once each |
| HopOrder.HopOrderMatters | crates/gossip/src/gossip/mod.rs:183-197 | with one copy handled out of hop order and all else as required, a node within max_ttl hops never publishes the broadcast |
| Hub.StarDelivers | crates/gossip/src/gossip/mod.rs:173-198 | in a star of lossless FIFO connections each has delivered, or still carries, exactly what was put on it, in order, whatever the caches evict |
| Hub.FloodCarriesStar | crates/gossip/src/gossip/mod.rs:126-198 | there every step of a flood puts a broadcast of the coordinator at the end of the picked workers' queues, hands a worker the head of its queue, or carries a claim: the network of the claim protocol |

## Left out

- Indexer.PollsApplyKnown: for a table nobody else writes between polls; `Reconcile.PollsReconcile` covers the others.
- Indexer.IndexerRefinesFold: for a table nobody else writes between polls; `Reconcile.IndexerReconciles` covers the others.
- Indexer.IndexerAgreesWithContract: for a table nobody else writes between polls; `Reconcile.IndexerReconciles` covers the others.
- Star.WinnerProves: claims and completions that the coordinator's node forwards between workers are not queued; workers ignore them.
- TCP, channels and their capacities, codecs, HTTP routing and JSON: queues or sets of messages, and one step per lock-protected update.
- SHA-256, ed25519 and bincode internals: an arbitrary hash of 32 bytes, a sound signature scheme, and the signed tuple itself.
- RISC Zero proving, receipts and seal extraction: the prover may fail at will, the verifier passes or reverts.
- Gas: a frame that runs out of gas is a frame that reverts.
- Integer widths other than the guest's 64-bit words: amounts, times and block numbers do not overflow in the source's use.
- Coordinator restarts, chain reorganisations and lagged subscribers: the code gives no guarantee across them.
- `GossipNode::send`, `getJob`, response mapping, id parsing and configuration: they would only add easy members.
