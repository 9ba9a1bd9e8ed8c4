# LEZ atomic swaps: a verified model

This project models the parts of the LEZ atomic-swap system whose correctness rests on an argument that
spans many steps, and proves that argument:

- the v0.1.2 bridge sidecar: a planner with three write-once slots, a durable map of answers, and the
  server that ties them together across persistence failures, cancellations, crashes and restarts
  (`Nssa`, `Canonical`, `Planner`, `PlannerTheorems`, `Store`, `Bridge`, `BridgeTheorems`, `RequestTheorems`,
  `Server`, `ProgramHex`);
- the observers that read a chain while it moves: the v0.2 escrow and claim observers, the v0.1.2
  observers with their equal-tip bracket, and the v0.2 finalized refund observer
  (`Chain`, `Scanning`, `EscrowObservation`, `TipBracket`, `NativeObservation`, `BracketTheorems`,
  `RefundObservation`, `RefundObserver`, `MatchTheorems`);
- durable reservation files under concurrent creators, loaders, kills and machine crashes
  (`Reservation`, `ReservationTheorems`);
- the evidence exporter's block index (`BlockIndex`), the Desk's lot prices and both quoting functions
  (`LotPricing`), and the offer rebroadcast sweep (`OfferSweep`).

`dafny verify dfyconfig.toml` checks everything.

## How the model is built

Hashes, signatures and byte encodings are free constructors: two are equal exactly when they were made
from equal parts. JSON and borsh round trips are therefore the identity.

The bridge is a transition system. One request at a time is begun (replayed or reserved), performed and
completed; any persistence may fail before or after its rename; an operation may be cancelled; the process
may be killed or the machine may crash at any point. The disk is the file visible now together with every
file a crash could leave, since a rename is not durable before its directory is synced. What the network,
the clock and the signer's randomness decide are parameters of the steps. The server object in `Server`
is proved to take exactly these steps.

A chain is a history: the canonical chain at every instant. Each read happens at some instant not before
the previous one and answers from that instant's chain, or fails. `Chain` names the assumptions about a
node once: canonical blocks are linked, block hashes do not collide, a replaced block never becomes
canonical again, and one range read answers from one instant. A block is its hashed content: whether it is
pending, safe or finalized is no part of it and may change at any time. Observers return, besides their
answer, ghost values that say which chain was pinned; the reference they are proved against is one scan of
that chain. What an observer may refuse is stated for a steady node: one that answers every read of a chain
that only grows. There each observer accepts exactly when a named check says so, and refuses with its error.

Transactions are described field by field in `Canonical`; the theorems about planners and observers speak of
those fields and not of the functions that build messages.
Node faults that the source distinguishes only in their message are one `ObservationError` each.

Reservation files are a transition system over inodes, directory entries and any number of processes, one
system call per step.

## Where the code does less than one might expect

- A process restart over a file whose directory was never synced serves that file from clean memory and
  does not sync it. An answer given then can be taken back by a machine crash. `AnswersAgree` therefore
  asks that the machine does not crash while such a start is exposed, that is, until the next completed
  persistence; without machine crashes it asks nothing. `UnsettledStartIsReachable` shows the other case
  happens, and `AnswerIsFinalIffFilesAgree` gives the exact condition for every single answer.
- An exact v0.2 claim that is not found is reported absent however little of its window is on the chain.
  `ClaimVerdictMeans` states both rules; absence is sound for discovery only.
- A reservation's `create` can report an error after its rename has installed the file
  (`FailureMayInstall`), and a pair that loads is not there to stay before a directory sync
  (`StaysIffDurable`).
- The block index searches from id zero. On a chain whose genesis is block one it asks for the missing
  block zero exactly when the head is block one or the first block is already inside the window
  (`FindFirst`).
- A whole offer quotes on the Desk exactly when its product is an exact double
  (`WholeOfferQuotesEntered`); one bitcoin for 100,000,001 LEZ does not, while the market module quotes it
  (`SomeWholeOffersDoNotQuote`). Beyond exact doubles the form may refuse a whole-lot minimum and a
  reloaded offer may show another amount (`RoundedMinimumMayBeRefused`, `RoundedReloadMayDiffer`).
- An offer whose id text the bridge refuses stalls the sweep whenever a page ends with it
  (`TurnProgresses`).
- The v0.2 account snapshot is bracketed by tip heights only, so under a reorganisation its two accounts
  may come from different chains; `FactsExtend` says what still holds, `ReadSnapshot` what append-only adds.
- The v0.2 pair and claim observers call a chain that only grows moving when a block arrives between the two
  height reads of a snapshot, though its earlier reads bear growth; `ObserveEscrow` and `ObserveClaim` give
  the condition.

## Model

| member | source | states |
|---|---|---|
| `Nssa.DecodePrepared` | compat/lez-v0_1_2-sidecar/src/lib.rs:2250-2283 | accepted bytes are the exact bytes of a transaction with one nonce and one witness over its own message by the expected signer |
| `Nssa.DecodeUnsignedRefund` | compat/lez-v0_1_2-sidecar/src/lib.rs:2285-2306 | accepted bytes are the exact bytes of the expected message without nonce or witness |
| `Nssa.SignDecodes` | compat/lez-v0_1_2-sidecar/src/lib.rs:2223-2283 | whatever a key signs decodes again, to the same message, for that key's account |
| `Canonical.PairMessagesSay` | compat/lez-v0_1_2-sidecar/src/lib.rs:2337-2373 | the initialization and the funding built for terms are exactly the messages with the terms' swap, hash, digest, amount, refund time, transfer program, accounts in order and nonce in their own fields |
| `Canonical.ClaimMessageSays` | compat/lez-v0_1_2-sidecar/src/lib.rs:2375-2394 | the claim built for terms is exactly the message with the terms' swap and accounts, the nonce and the preimage |
| `Canonical.RefundMessageSays` | compat/lez-v0_1_2-sidecar/src/lib.rs:2396-2415 | the refund built for terms is exactly the message with the terms' swap and accounts and no nonce |
| `Planner.DecodeExactForSubmission` | compat/lez-v0_1_2-sidecar/src/lib.rs:1904-1943 | only bytes held in a slot are decoded for submission, to the transaction they encode |
| `Planner.PrepareEscrowKeeps` | compat/lez-v0_1_2-sidecar/src/lib.rs:1617-1651 | preparing a pair keeps the planner invariant and every filled slot, and a success is held; `PairIsPrepared` says when it succeeds and what it prepares |
| `Planner.PrepareClaimKeeps` | compat/lez-v0_1_2-sidecar/src/lib.rs:1739-1776 | preparing a claim keeps the invariant and every filled slot, and a success is held |
| `Planner.PrepareRefundKeeps` | compat/lez-v0_1_2-sidecar/src/lib.rs:1839-1862 | preparing a refund keeps the invariant and every filled slot, and a success is held |
| `Planner.RestorePairKeeps` | compat/lez-v0_1_2-sidecar/src/lib.rs:1665-1725 | restoring a pair keeps the invariant and every filled slot, and a success fills the slot with it |
| `Planner.RestoreClaimKeeps` | compat/lez-v0_1_2-sidecar/src/lib.rs:1786-1827 | restoring a claim keeps the invariant and every filled slot, and a success fills the slot with it |
| `Planner.PlannerRunsAreSafe` | compat/lez-v0_1_2-sidecar/src/lib.rs:1617-1892 | under any order of prepare and restore calls slots are write-once, the funding nonce follows the initialization nonce without overflow, and the claim nonce is neither |
| `Planner.ReplayedPreparationIsByteIdentical` | compat/lez-v0_1_2-sidecar/src/lib.rs:1617-1892 | a pair, a claim or a refund prepared again, after any other calls and with any nonce and randomness at hand, gives the same bytes, no second signature, and leaves the planner as it is |
| `PlannerTheorems.CheckMeans` | compat/lez-v0_1_2-sidecar/src/lib.rs:1572-1605 | a configuration is accepted exactly when its runtime has its role, its key's account, its program and the pinned compatibility |
| `PlannerTheorems.HeldPairSays` | compat/lez-v0_1_2-sidecar/src/lib.rs:2337-2373 | a held pair is signed by the sidecar's key and carries the request's terms field by field, at consecutive nonces, under the request's context |
| `PlannerTheorems.HeldClaimSays` | compat/lez-v0_1_2-sidecar/src/lib.rs:2375-2394 | a held claim is signed by the sidecar's key and claims the request's swap with the preimage of its secret |
| `PlannerTheorems.HeldRefundSays` | compat/lez-v0_1_2-sidecar/src/lib.rs:2396-2415 | a held refund returns the request's swap, without nonce or signature |
| `PlannerTheorems.HeldNoncesDiffer` | compat/lez-v0_1_2-sidecar/src/lib.rs:1617-1776 | two transactions a planner holds never share a nonce |
| `PlannerTheorems.PairIsPrepared` | compat/lez-v0_1_2-sidecar/src/lib.rs:1617-1651 | a pair is prepared exactly for a depositor's own request, when the slot holds that very request or is free and two consecutive nonces no held transaction has are at hand; a new one takes those nonces, randomness and terms |
| `PlannerTheorems.ClaimIsPrepared` | compat/lez-v0_1_2-sidecar/src/lib.rs:1739-1776 | a claim is prepared exactly for a claimant's own request with the preimage of its secret, when the slot holds that request or is free and a nonce no held transaction has is at hand |
| `PlannerTheorems.RefundIsPrepared` | compat/lez-v0_1_2-sidecar/src/lib.rs:1839-1862 | a refund is prepared exactly for a depositor's own hashlock request, when the slot is free or holds that request |
| `PlannerTheorems.PairIsRestored` | compat/lez-v0_1_2-sidecar/src/lib.rs:1665-1725 | a pair is restored exactly when the slot is free or holds it and the planner with it satisfies the invariant of every prepared planner |
| `PlannerTheorems.ClaimIsRestored` | compat/lez-v0_1_2-sidecar/src/lib.rs:1786-1827 | the same for a claim |
| `PlannerTheorems.RefundIsRestored` | compat/lez-v0_1_2-sidecar/src/lib.rs:1871-1892 | the same for a refund |
| `Planner.NativeEscrowPlanner.constructor` | compat/lez-v0_1_2-sidecar/src/lib.rs:1572-1605 | a new planner has three empty slots |
| `Planner.NativeEscrowPlanner.Prepare` | compat/lez-v0_1_2-sidecar/src/lib.rs:1617-1651 | the object's new slots and result are those of the specified preparation, whose meaning `PairIsPrepared` gives |
| `Planner.NativeEscrowPlanner.PrepareRevealingClaim` | compat/lez-v0_1_2-sidecar/src/lib.rs:1739-1776 | the object's new slots and result are those of the specified preparation |
| `Planner.NativeEscrowPlanner.PrepareNativeRefund` | compat/lez-v0_1_2-sidecar/src/lib.rs:1839-1862 | the object's new slots and result are those of the specified preparation |
| `Planner.NativeEscrowPlanner.RestorePrepared` | compat/lez-v0_1_2-sidecar/src/lib.rs:1665-1725 | the object's new slots and result are those of the specified restoration |
| `Planner.NativeEscrowPlanner.RestoreRevealingClaim` | compat/lez-v0_1_2-sidecar/src/lib.rs:1786-1827 | the object's new slots and result are those of the specified restoration |
| `Planner.NativeEscrowPlanner.RestoreNativeRefund` | compat/lez-v0_1_2-sidecar/src/lib.rs:1871-1892 | the object's new slots and result are those of the specified restoration |
| `Store.OneSuccess` | compat/lez-v0_1_2-sidecar/src/server.rs:293-392 | a map coupled to a planner has at most one success of each prepare method |
| `Store.RestoredIsHeld` | compat/lez-v0_1_2-sidecar/src/server.rs:293-392 | restoring one method of a coupled map never fails and yields exactly the planner's own slot, or nothing when there is no success |
| `Store.ReplayRestores` | compat/lez-v0_1_2-sidecar/src/server.rs:596-626 | replaying what a correct planner holds into an empty planner succeeds and fills exactly those slots as they were |
| `Store.StartRestores` | compat/lez-v0_1_2-sidecar/src/server.rs:224-392 | every coupled map opens and restores, to a planner coupled to it whose slots are filled exactly by the map's successes |
| `Store.Restored` | compat/lez-v0_1_2-sidecar/src/server.rs:293-324 | the pass over all entries finds the one success, or reports a second or undecodable one |
| `Store.DurableStore.constructor` | compat/lez-v0_1_2-sidecar/src/server.rs:224-291 | an opened store is clean and holds the visible file |
| `Store.DurableStore.PersistFile` | compat/lez-v0_1_2-sidecar/src/server.rs:394-428 | replacing the file leaves the old file, the new one, or either, as its failure point dictates |
| `Store.DurableStore.ReplayAnswer` | compat/lez-v0_1_2-sidecar/src/server.rs:447-470 | a cached answer is given only for the same method and request, and only once memory is clean |
| `Store.DurableStore.ReserveSlot` | compat/lez-v0_1_2-sidecar/src/server.rs:472-510 | a submission is let through only after its in-flight guard is durable, and a full map lets nothing through |
| `Store.DurableStore.FinishRequest` | compat/lez-v0_1_2-sidecar/src/server.rs:512-536 | an outcome is in memory before it is on disk, and memory is dirty until it is |
| `Bridge.OperateKeeps` | compat/lez-v0_1_2-sidecar/src/lib.rs:1457-1484 | every operation keeps the planner invariant, a success is held, and only a submission of held bytes reaches the node; `SubmissionMeans` and `PreparationMeans` say what is answered |
| `Bridge.PersistKeeps` | compat/lez-v0_1_2-sidecar/src/server.rs:394-428 | persisting a coupled memory leaves only files that restore, whichever a crash picks |
| `Bridge.BeginKeeps` | compat/lez-v0_1_2-sidecar/src/server.rs:914-954 | replaying or reserving keeps the whole invariant |
| `Bridge.PerformKeeps` | compat/lez-v0_1_2-sidecar/src/server.rs:914-954 | operating keeps the whole invariant, the send included |
| `Bridge.CompleteKeeps` | compat/lez-v0_1_2-sidecar/src/server.rs:512-536 | finishing keeps the whole invariant |
| `Bridge.RestartKeeps` | compat/lez-v0_1_2-sidecar/src/server.rs:596-626 | starting never fails on a reachable disk and keeps the whole invariant |
| `Bridge.RunKeeps` | compat/lez-v0_1_2-sidecar/src/server.rs:914-964 | every run of steps keeps the whole invariant |
| `BridgeTheorems.AtMostOneSend` | compat/lez-v0_1_2-sidecar/src/server.rs:472-536 | in every run the node is handed at most one transaction per request id |
| `BridgeTheorems.SendsAreHeldBytes` | compat/lez-v0_1_2-sidecar/src/lib.rs:1457-1484 | every send of every run is the submitted bytes of a durably guarded request, held by the planner live at that moment |
| `BridgeTheorems.EveryReachableFileRestores` | compat/lez-v0_1_2-sidecar/src/server.rs:224-392 | every file any crash of any run can leave is within bounds, starts without error, and restores exactly its successes, one per method |
| `BridgeTheorems.EveryLiveServerIsCoupled` | compat/lez-v0_1_2-sidecar/src/server.rs:914-964 | in every run a live server's nonces are apart, its map is coupled to its planner, and clean memory is the file |
| `BridgeTheorems.StableForever` | compat/lez-v0_1_2-sidecar/src/server.rs:394-536 | a record in memory and in every possible file stays there through every run |
| `BridgeTheorems.AnswersAgree` | compat/lez-v0_1_2-sidecar/src/server.rs:914-964 | two answers under one id are equal and each prepare method has one successful answer, in every run whose machine does not crash while a start over an unsynced file is exposed |
| `BridgeTheorems.AnswersAgreeWithoutCrash` | compat/lez-v0_1_2-sidecar/src/server.rs:914-964 | without machine crashes that holds of every run, kills and restarts over unsynced files included |
| `BridgeTheorems.SettledStartsUnexposed` | compat/lez-v0_1_2-sidecar/src/server.rs:394-428 | starts over settled disks are never exposed, so the machine may then crash at any time |
| `BridgeTheorems.AnsweredIsTheOnlyOne` | compat/lez-v0_1_2-sidecar/src/lib.rs:1617-1943 | once a pair, claim or refund is answered, the live planner at every later point of the run holds it and only its transactions of that slot are sent |
| `BridgeTheorems.AnsweredIsTheOnlyOneForever` | compat/lez-v0_1_2-sidecar/src/lib.rs:1617-1943 | if no start was exposed by then, the same holds through every further run whatsoever |
| `BridgeTheorems.RevocationAnswersOtherwise` | compat/lez-v0_1_2-sidecar/src/server.rs:447-470 | an answer some possible file lacks is followed, in a concrete run, by a different answer under its id |
| `BridgeTheorems.AnswerIsFinalIffFilesAgree` | compat/lez-v0_1_2-sidecar/src/server.rs:447-470 | an answer from clean memory is the only one under its id in every further run exactly when every possible file records it |
| `BridgeTheorems.UnsettledStartIsReachable` | compat/lez-v0_1_2-sidecar/src/server.rs:394-428 | a guard renamed but not synced, and a killed process, lead to a clean answer that a possible file lacks |
| `RequestTheorems.AcceptsMeans` | compat/lez-v0_1_2-sidecar/src/server.rs:880-912 | a request is taken exactly when its run, its role and the runtime it names are this sidecar's |
| `RequestTheorems.SubmissionMeans` | compat/lez-v0_1_2-sidecar/src/lib.rs:1457-1484 | a submission hands the node exactly the bytes it names, if they are held; the node's own hash is a success, -32602 an invalid transaction, anything else unknown; bytes that are not held are refused as invalid |
| `RequestTheorems.PreparationMeans` | compat/lez-v0_1_2-sidecar/src/server.rs:539-575 | a preparation answers its result, or that no nonce was to be had, or for a claim the wrong role, or an invalid request |
| `RequestTheorems.ObservationMeans` | compat/lez-v0_1_2-sidecar/src/server.rs:539-575 | a description always answers; an observation answers what was seen or the kind of its failure |
| `RequestTheorems.FirstRequestIsAnswered` | compat/lez-v0_1_2-sidecar/src/server.rs:914-964 | a first request whose persistences complete is operated once, recorded on every file a crash could leave, answered, and sends exactly what its operation hands over |
| `RequestTheorems.SubmissionIsAnswered` | compat/lez-v0_1_2-sidecar/src/server.rs:914-964 | a first submission of held bytes sends exactly them and answers what the node made of them |
| `RequestTheorems.TakenIdIsReplayed` | compat/lez-v0_1_2-sidecar/src/server.rs:447-470 | the same request again is answered its record once that is on disk; another request under the id is not answered; nothing else changes |
| `RequestTheorems.GuardIsRecorded` | compat/lez-v0_1_2-sidecar/src/server.rs:472-510 | a submission's guard is on every file a crash could leave before it is handed over |
| `RequestTheorems.KilledSubmissionIsUnknown` | compat/lez-v0_1_2-sidecar/src/server.rs:472-510 | a submission whose process is killed before its outcome is stored is answered as unknown after the restart and not handed over again |
| `RequestTheorems.CancelledSubmissionIsUnknown` | compat/lez-v0_1_2-sidecar/src/server.rs:914-964 | a submission cancelled under its guard is answered as unknown without a restart |
| `Server.BridgeServer.constructor` | compat/lez-v0_1_2-sidecar/src/server.rs:596-626 | the server object owns a valid store and planner of one configuration |
| `Server.BridgeServer.BeginRequest` | compat/lez-v0_1_2-sidecar/src/server.rs:880-930 | validation, replay and reservation on the object are the Begin step, with the source's refusals |
| `Server.BridgeServer.PlanOrSubmit` | compat/lez-v0_1_2-sidecar/src/server.rs:689-877 | the object's operation is the specified one; a submission of held bytes hands exactly them over and answers what the node made of them, any other submission is refused |
| `Server.BridgeServer.PerformOperation` | compat/lez-v0_1_2-sidecar/src/server.rs:914-954 | operating on the object is the Perform step |
| `Server.BridgeServer.CompleteRequest` | compat/lez-v0_1_2-sidecar/src/server.rs:914-964 | finishing on the object is the Complete step, and it answers only what is durable |
| `Server.BridgeServer.Execute` | compat/lez-v0_1_2-sidecar/src/server.rs:914-964 | one uninterrupted request is the three steps of the bridge; a first one whose persistences complete answers its operation's outcome, for held bytes what the node made of them; a request for another sidecar is refused and changes nothing |
| `Server.RestorePlanner` | compat/lez-v0_1_2-sidecar/src/server.rs:596-626 | replaying the map into a new planner object succeeds exactly when the specification does, with its state |
| `Server.StartServer` | compat/lez-v0_1_2-sidecar/src/server.rs:596-626 | starting the object is the Restart step and fails exactly when it does |
| `ProgramHex.ToHex` | compat/lez-v0_1_2-sidecar/src/lib.rs:2314-2320 | the loop over words computes the byte form, each word low byte first in its own four bytes |
| `ProgramHex.FromHex` | compat/lez-v0_1_2-sidecar/src/lib.rs:2329-2335 | the loop over chunks computes the word form, each word from its own four bytes, low byte first |
| `ProgramHex.HexRoundTrip` | compat/lez-v0_1_2-sidecar/src/lib.rs:2314-2335 | the two forms of a program id determine each other |
| `Chain.SharedBlockSharesAncestors` | compat/lez-v0_2-sidecar/src/bridge_runtime.rs:2429-2459 | a block canonical at two instants has the same ancestors at both |
| `Chain.PinnedBetween` | compat/lez-v0_2-sidecar/src/bridge_runtime.rs:2084-2109 | between pinning a tip and seeing it canonical again every instant's chain begins with the pinned one |
| `Chain.ReadTip` | compat/lez-v0_2-sidecar/src/bridge_runtime.rs:2111-2124 | the two reads of a tip pin a chain that was canonical at the second and had its height at the first |
| `Chain.RangeIsWindow` | compat/lez-v0_2-sidecar/src/bridge_runtime.rs:2055-2078 | the range read from a chain that begins with the pinned one, without its anchor, is the pinned chain's window: heights start to the lesser of its end and the tip |
| `Scanning.ScanBlocks` | compat/lez-v0_2-sidecar/src/bridge_runtime.rs:1710-1816 | the nested loops over blocks and transactions compute the left-to-right scan |
| `Scanning.ScanFindsUniqueMatches` | compat/lez-v0_2-sidecar/src/bridge_runtime.rs:2410-2423 | a scan succeeds exactly when nothing fails to classify and no kind occurs twice, and its slots are then the unique matches |
| `Scanning.SlotsAreUniqueMatches` | compat/lez-v0_2-sidecar/src/bridge_runtime.rs:1710-1816 | a filled slot is the one match among the window's heights, an empty one means there is none |
| `Scanning.VerdictsMean` | compat/lez-v0_2-sidecar/src/bridge_runtime.rs:1395-1501 | found is the one match, absent is discovery over a fully covered window without one, anything else is unknown, and a found funding lies strictly after a found initialization |
| `Scanning.VerdictsExist` | compat/lez-v0_2-sidecar/src/bridge_runtime.rs:1440-1446 | there are verdicts exactly when nothing in the window fails to classify, no kind occurs twice, and a second match comes after a first |
| `Scanning.DuplicatesAreReported` | compat/lez-v0_2-sidecar/src/bridge_runtime.rs:2410-2424 | where nothing fails to classify a failed scan is invalid for an exact target and ambiguous for a discovery |
| `EscrowObservation.ValidateBlockRange` | compat/lez-v0_2-sidecar/src/bridge_runtime.rs:2429-2459 | the loop accepts exactly complete linked ranges that agree with the genesis hash |
| `EscrowObservation.ConfirmExtends` | compat/lez-v0_2-sidecar/src/bridge_runtime.rs:2084-2102 | acceptance of a higher view means the pinned tip is canonical at the read, a report of moving that it is not or that the view is no higher, a report of unavailability that the read failed or found nothing; an equal view needs no read; growth alone is never called moving, and a steady node's growth is accepted |
| `EscrowObservation.ConfirmTipExtends` | compat/lez-v0_2-sidecar/src/bridge_runtime.rs:2105-2109 | it accepts only when the extension bracket closes on its reads and reports moving only when it does not; on an append-only chain a moving tip is never reported |
| `BracketTheorems.TipPinsOneChain` | compat/lez-v0_2-sidecar/src/bridge_runtime.rs:2084-2109 | a tip pins one and the same chain whenever it is read |
| `BracketTheorems.EqualTipRunsAreExtensionRuns` | compat/lez-v0_1_2-sidecar/src/lib.rs:481-494 | on every history, pinned tip and closing read, what the equal-tip bracket accepts the extension bracket accepts on the same reads, pinning the same chain throughout |
| `BracketTheorems.BracketsOnGrowingChains` | compat/lez-v0_2-sidecar/src/bridge_runtime.rs:2084-2109 | on a growing chain the extension bracket always closes, the equal-tip bracket exactly when no block arrived |
| `BracketTheorems.InclusionIsStrict` | compat/lez-v0_2-sidecar/src/bridge_runtime.rs:2084-2109 | a concrete history that the extension bracket accepts and the equal-tip bracket refuses |
| `EscrowObservation.BlocksInWindow` | compat/lez-v0_2-sidecar/src/bridge_runtime.rs:2055-2078 | the pinned tip was the newest when its height was read during the call; accepted blocks are the pinned chain's window although the range is never compared with the tip's hash; append-only growth is never called moving |
| `EscrowObservation.ReadSnapshot` | compat/lez-v0_2-sidecar/src/runtime.rs:552-626 | it accepts only with both heights equal and reports moving only with them different; each account comes from an instant between them, bound to the terms, with the amount in a funded escrow and nothing in any other; on an append-only chain both come from the reported tip's chain; a steady node's snapshot is refused exactly for heights, binding or balance |
| `EscrowObservation.SnapshotAndConfirm` | compat/lez-v0_2-sidecar/src/bridge_runtime.rs:1447-1456 | the snapshot is taken when wanted, inside the call, bound and balanced; its tip is the pinned one or higher and its accounts come from chains that extend the pinned one; the later tip closes the extension bracket after it; an append-only chain is called moving only when a block arrived between the snapshot's two heights, which no accepted snapshot has |
| `EscrowObservation.ValidateAuthority` | compat/lez-v0_2-sidecar/src/bridge_runtime.rs:2356-2369 | witnessed terms are accepted exactly when they name the account of their aggregate key, and neither party's |
| `EscrowObservation.ObservePair` | compat/lez-v0_2-sidecar/src/bridge_runtime.rs:1440-1502 | an admitted observation rests on one pinned chain, and a steady node's is refused exactly for its verdicts or its snapshot |
| `EscrowObservation.ChooseWindow` | compat/lez-v0_2-sidecar/src/bridge_runtime.rs:1395-1436 | discovery uses the requested window; an exact target the window of MAX_DISCOVERY_BLOCKS heights that ends at the newest tip seen during the call, or starts at genesis |
| `EscrowObservation.ObserveEscrow` | compat/lez-v0_2-sidecar/src/bridge_runtime.rs:1395-1626 | whoever is neither the depositor with its own pair nor the counterparty is refused; whatever the chain does between the reads, the pinned tip was the newest when its height was read during the call, accepted verdicts are those of one scan of its chain over the requested window or the newest one of a tip seen before (`V2PairVerdictsMean` says what they mean), ambiguity is real, facts with the amount in a funded escrow and nothing in any other extend the pinned chain, and the later tip closes the extension bracket last; over a steady node it accepts exactly when the chain's verdicts exist and the snapshot of what is found has equal heights, bound metadata and that balance |
| `EscrowObservation.ClaimVerdictMeans` | compat/lez-v0_2-sidecar/src/bridge_runtime.rs:1634-1704 | a found claim is the one match; a discovered one is absent exactly with full coverage, an exact one without it |
| `EscrowObservation.ConfirmClaim` | compat/lez-v0_2-sidecar/src/bridge_runtime.rs:1675-1698 | a found claim's snapshot is claimed, bound and emptied, on chains that extend the pinned one and with a tip that is the pinned one or higher; the later tip closes the extension bracket after it |
| `EscrowObservation.ObserveClaim` | compat/lez-v0_2-sidecar/src/bridge_runtime.rs:1634-1704 | the same for a claim, whose found verdict needs a claimed, emptied escrow; over a steady node it accepts exactly when the chain's verdict exists and the snapshot of a found claim has equal heights, bound metadata, the right balance and a claimed status |
| `TipBracket.ValidateBlockRange` | compat/lez-v0_1_2-sidecar/src/lib.rs:2503-2545 | the loop accepts exactly complete linked ranges whose hashes are recomputed and which agree with the genesis hash |
| `TipBracket.RangesWithOneTipAgree` | compat/lez-v0_1_2-sidecar/src/lib.rs:2503-2545 | two accepted ranges of the same heights with the same last hash are the same blocks at every height |
| `TipBracket.ReadWindow` | compat/lez-v0_1_2-sidecar/src/lib.rs:1003-1025 | the blocks scanned are the validated range without its anchor, nothing above the tip |
| `TipBracket.BracketHolds` | compat/lez-v0_1_2-sidecar/src/lib.rs:481-494 | every instant of a closed bracket extends the pinned chain, and equals it if chains only grow |
| `TipBracket.ReadAccounts` | compat/lez-v0_1_2-sidecar/src/lib.rs:1160-1204 | each account at its own instant: both absent, or bound and with the amount in a funded escrow and nothing in any other; a steady node's accounts are refused exactly when they are neither |
| `TipBracket.CloseTip` | compat/lez-v0_1_2-sidecar/src/lib.rs:490-494 | it accepts only when the equal-tip bracket closes on its reads and reports moving only when it does not; over a steady node exactly so |
| `TipBracket.ScanIsAtomic` | compat/lez-v0_1_2-sidecar/src/lib.rs:1003-1060 | a scan made inside a closed bracket is the scan of the pinned chain |
| `TipBracket.ObserveBracketed` | compat/lez-v0_1_2-sidecar/src/lib.rs:451-862 | an accepted pair or claim observation has the verdicts of one scan of the pinned chain, with accounts of what was found read inside the bracket; a steady node's chain of hashed blocks is refused exactly for its scan, its accounts or a tip that did not stay |
| `NativeObservation.OwnedPair` | compat/lez-v0_1_2-sidecar/src/lib.rs:1945-1972 | an owned pair is two held transactions under exactly the asked ids; there is one exactly when the slot's request has that runtime and those terms |
| `NativeObservation.OwnedClaim` | compat/lez-v0_1_2-sidecar/src/lib.rs:1974-1999 | an owned claim is a held transaction under exactly the asked id; there is one exactly when the slot has those terms and a funding id |
| `NativeObservation.OwnedRefund` | compat/lez-v0_1_2-sidecar/src/lib.rs:2001-2026 | an owned refund is a held transaction under exactly the asked id; there is one exactly when the slot's request has that runtime and those terms |
| `NativeObservation.ChooseNewest` | compat/lez-v0_1_2-sidecar/src/lib.rs:466-478 | the window of an exact target is the newest one of the newest tip seen during the call |
| `NativeObservation.ObservePair` | compat/lez-v0_1_2-sidecar/src/lib.rs:451-541 | an admitted pair observation has the atomic verdicts for the owned pair or for any pair of the terms over the right window, from a bracket that opened on the newest tip and closed during the call, and a found funding an escrow that is not empty, with the amount if it is funded and nothing otherwise; others are refused, and over a steady node nobody else is but for the scan, the accounts or a tip that did not stay |
| `NativeObservation.ObserveClaim` | compat/lez-v0_1_2-sidecar/src/lib.rs:543-561 | the same for a claim: the atomic verdict for the owned claim or for any claim of the terms over the right window, and a found claim a claimed, emptied escrow |
| `NativeObservation.ObserveRefund` | compat/lez-v0_1_2-sidecar/src/lib.rs:563-629 | with accounts read first and always, an admitted refund observation has the atomic verdict over its window, accounts read inside a bracket that opened and closed during the call, and a found refund a refunded, emptied escrow; others are refused, and over a steady node nobody else is but for accounts, scan, status or closing tip |
| `MatchTheorems.DecodesIffSigned` | compat/lez-v0_1_2-sidecar/src/lib.rs:2250-2283 | decoding for an account succeeds exactly for one-nonce transactions that the account alone signed |
| `MatchTheorems.DiscoveredPairMeans` | compat/lez-v0_1_2-sidecar/src/lib.rs:1062-1158 | v0.1.2 discovery finds exactly the depositor-signed transactions whose fields are the initialization's or the funding's of the terms, as that kind and at their position, and calls nothing signed an error |
| `MatchTheorems.ExactPairMeans` | compat/lez-v0_1_2-sidecar/src/lib.rs:1062-1158 | a v0.1.2 exact target finds exactly its own two transactions, each as its own kind, if their fields are those of the terms and the depositor signed them, and skips exactly what it does not list |
| `MatchTheorems.HeldPairIsFound` | compat/lez-v0_1_2-sidecar/src/lib.rs:1062-1158 | a held pair included in a block is found by its owner's exact and its counterparty's discovering scan |
| `MatchTheorems.DiscoveredClaimMeans` | compat/lez-v0_1_2-sidecar/src/lib.rs:932-1001 | discovery finds exactly the claimant's signed claims that reveal the terms' secret |
| `MatchTheorems.ExactClaimMeans` | compat/lez-v0_1_2-sidecar/src/lib.rs:368-449 | the exact scan of a held claim finds that claim and nothing else, as the counterparty's discovery does |
| `MatchTheorems.HeldClaimAndRefundAreFound` | compat/lez-v0_1_2-sidecar/src/lib.rs:694-1001 | a held claim or refund included in a block is found |
| `MatchTheorems.RefundMatchMeans` | compat/lez-v0_1_2-sidecar/src/lib.rs:694-768 | a v0.1.2 refund, discovered or exact, is found exactly if its fields are the canonical refund's and nothing is signed, and if exact it is the expected bytes; exactly an unlisted one is skipped |
| `MatchTheorems.V2PairMeans` | compat/lez-v0_2-sidecar/src/bridge_runtime.rs:1710-1929 | v0.2, hashlocked or witnessed, discovering or exact: the first is exactly a depositor-signed initialization of the terms field by field, the second a funding, an exact target's only its own two, each at its own position; no listed transaction of the program is skipped, and a fault says what it is |
| `MatchTheorems.V2ClaimMeans` | compat/lez-v0_2-sidecar/src/bridge_runtime.rs:1931-2008 | v0.2, discovering or exact: found is exactly a claimant-signed claim of the terms' secret, an exact target's only its own with the preimage held; the listed transaction of the program is not skipped |
| `MatchTheorems.V2PairVerdictsMean` | compat/lez-v0_2-sidecar/src/bridge_runtime.rs:1395-1502 | the verdicts of the v0.2 pair observer in terms of the chain: found is a wanted transaction standing in the window, whatever wanted stands there is found, a missing one is absent exactly for a discovered window that the chain covers, a funding comes after its initialization |
| `MatchTheorems.PrivateIsNeverFound` | compat/lez-v0_1_2-sidecar/src/lib.rs:694-1120 | a private transaction is never found: a v0.1.2 exact target that lists it fails, every other scan skips it |
| `MatchTheorems.CanonicalRefundIsFound` | compat/lez-v0_2-sidecar/src/finalized_refund_observation.rs:251-423 | the canonical unsigned refund is found wherever it is included and valid exactly when truly labelled and not early, and reported at its position |
| `RefundObservation.SearchMeans` | compat/lez-v0_2-sidecar/src/finalized_refund_observation.rs:138-423 | a search that ends answers from the window's unique match: found means that match, canonical by its fields, truly labelled, unsigned and not early, with the escrow bound, refunded and empty right after its block; absent means a covered window without a match |
| `RefundObservation.ObservationMeans` | compat/lez-v0_2-sidecar/src/finalized_refund_observation.rs:71-136 | an accepted observation of a linked chain: the tip's metadata is bound with the reported status, past funding, and custody holds the amount if funded and nothing otherwise; a refunded tip is not early; a found refund stands in the window at its reported position, with the escrow refunded and empty right after its block and at the tip |
| `RefundObservation.AccountsMean` | compat/lez-v0_2-sidecar/src/finalized_refund_observation.rs:471-573 | accounts are accepted exactly when bound, past funding, of the wanted status, and holding the amount if funded and nothing otherwise |
| `RefundObservation.ValidRefundMeans` | compat/lez-v0_2-sidecar/src/finalized_refund_observation.rs:358-459 | a found refund is valid exactly when it is canonical by its fields, unsigned, truly labelled, not early, and the owned bytes if there are any; a discovered one that is otherwise true conflicts |
| `RefundObservation.CandidatesMean` | compat/lez-v0_2-sidecar/src/finalized_refund_observation.rs:251-321 | an exact query looks at the transaction labelled with the owned id, a discovery at the program's refunds of the swap, which conflict exactly when their accounts are not the canonical ones |
| `RefundObservation.SearchEnds` | compat/lez-v0_2-sidecar/src/finalized_refund_observation.rs:138-203 | a search ends exactly on a window that starts on the chain and whose one match, if there is one, is true and settled |
| `RefundObservation.TwoMatchesAreReported` | compat/lez-v0_2-sidecar/src/finalized_refund_observation.rs:251-321 | two matches are invalid for an exact query and ambiguous for a discovery |
| `RefundObservation.ObservationEnds` | compat/lez-v0_2-sidecar/src/finalized_refund_observation.rs:71-136 | an observation is accepted exactly when the tip is settled and, if refunded, not early, and the search, where one is due, ends, with a refunded tip if it found one |
| `RefundObservation.ShortcutHidesNoRefund` | compat/lez-v0_2-sidecar/src/finalized_refund_observation.rs:99-177 | skipping the search at a funded tip hides no refund: the full search finds none, and where refunds are final it ends, unless the window starts beyond the chain |
| `RefundObserver.ReadFinalizedBlock` | compat/lez-v0_2-sidecar/src/finalized_refund_observation.rs:575-593 | a block read by id and by hash was finalized at that height at one instant; an ideal indexer always answers |
| `RefundObserver.ReadAccounts` | compat/lez-v0_2-sidecar/src/finalized_refund_observation.rs:471-573 | with a confirmed pin, historical accounts are those after the pinned chain's block; `AccountsMean` says which are accepted |
| `RefundObserver.ScanRefund` | compat/lez-v0_2-sidecar/src/finalized_refund_observation.rs:251-321 | blocks read one instant each give, with a confirmed pin, the scan of the pinned window, errors included |
| `RefundObserver.SearchRefund` | compat/lez-v0_2-sidecar/src/finalized_refund_observation.rs:138-203 | with a confirmed pin the search is the search of the pinned chain |
| `RefundObserver.PathIsCanonical` | compat/lez-v0_2-sidecar/src/finalized_refund_observation.rs:622-644 | a linked path of once finalized blocks that ends on one chain lies on it |
| `RefundObserver.PinTip` | compat/lez-v0_2-sidecar/src/finalized_refund_observation.rs:88-93 | the pinned block was the newest finalized one when its height was read during the call; an ideal indexer always gives one |
| `RefundObserver.EnsureSnapshot` | compat/lez-v0_2-sidecar/src/finalized_refund_observation.rs:595-645 | acceptance means that one chain holds the linked path from the pinned tip to the height the finalized chain had when the check read it, and that the pinned tip was finalized after that; over an ideal indexer it accepts exactly growth up to MAX_DISCOVERY_BLOCKS by then and is otherwise only unavailable |
| `RefundObserver.ObserveRefund` | compat/lez-v0_2-sidecar/src/finalized_refund_observation.rs:71-136 | whoever may not ask is refused; an accepted answer is the observation of the one pinned finalized chain, whose tip was the newest when its height was read during the call, with bound metadata of the reported status, the amount in a funded escrow and nothing in any other, and a found refund standing on it; over an ideal indexer every answer is, errors included, unless the finalized chain was more than MAX_DISCOVERY_BLOCKS above the pinned tip when the closing check read its height |
| `Reservation.RenameKeeps` | compat/lez-v0_2-sidecar/src/durable_reservation.rs:566-648 | a rename binds a free fixed name to the creator's own whole, synced file |
| `Reservation.AcknowledgeKeeps` | compat/lez-v0_2-sidecar/src/durable_reservation.rs:566-648 | a creation is reported only once durable, and only if none of its kind was; `RenamedCreatorReports` says that it is reported |
| `Reservation.CrashKeeps` | compat/lez-v0_2-sidecar/src/durable_reservation.rs:512-648 | whatever bindings survive a crash, fixed files are whole and reported reservations are there |
| `Reservation.RunKeeps` | compat/lez-v0_2-sidecar/src/durable_reservation.rs:512-661 | every interleaving of creators, loaders, failures, kills and crashes keeps the protocol's invariant |
| `ReservationTheorems.FixedFilesAreWhole` | compat/lez-v0_2-sidecar/src/durable_reservation.rs:566-648 | in every run a fixed name shows only a whole envelope of its kind |
| `ReservationTheorems.OneReservationForever` | compat/lez-v0_2-sidecar/src/durable_reservation.rs:512-648 | over every run, once a creation is reported no other creation of its kind is, and every later load of the kind is that pair or an error; `CreationSucceeds` gives the runs in which one is |
| `ReservationTheorems.CreationSucceeds` | compat/lez-v0_2-sidecar/src/durable_reservation.rs:566-648 | whoever else is at work, a creator of a free kind whose calls all succeed reports the reservation, leaves exactly its file, durably, and disturbs nobody |
| `ReservationTheorems.TakenKindIsRefused` | compat/lez-v0_2-sidecar/src/durable_reservation.rs:566-648 | a creator of a taken kind reports a failure and leaves the directory as it was |
| `ReservationTheorems.RenamedCreatorReports` | compat/lez-v0_2-sidecar/src/durable_reservation.rs:632-648 | wherever others have got to, a creator that has renamed and syncs the directory reports its reservation, which is durable then |
| `ReservationTheorems.LoadSucceeds` | compat/lez-v0_2-sidecar/src/durable_reservation.rs:512-564 | a load whose calls all succeed reports what the kind's file holds, and nothing exactly when the kind is free |
| `ReservationTheorems.CreatedIsLoaded` | compat/lez-v0_2-sidecar/src/durable_reservation.rs:512-648 | from any world of any run in which the kind is free, a creation and then a load report the pair and the same pair |
| `ReservationTheorems.PartialIsRefused` | compat/lez-v0_2-sidecar/src/durable_reservation.rs:650-662 | while a partial of the kind is there, creations and loads are refused at once |
| `ReservationTheorems.FailedCreationCleansUp` | compat/lez-v0_2-sidecar/src/durable_reservation.rs:639-648 | a creator that fails before its rename, and cleans up, reports the failure and leaves the directory without its temporary |
| `ReservationTheorems.FailedCallReports` | compat/lez-v0_2-sidecar/src/durable_reservation.rs:512-564 | a failed load reports so and changes nothing else |
| `ReservationTheorems.WrittenThenSynced` | compat/lez-v0_2-sidecar/src/durable_reservation.rs:606-615 | a creator's file is whole once written and safe from a crash once synced |
| `ReservationTheorems.CrashTears` | compat/lez-v0_2-sidecar/src/durable_reservation.rs:606-615 | a crash may tear exactly the files that were not synced |
| `ReservationTheorems.StepKeepsFixed` | compat/lez-v0_2-sidecar/src/durable_reservation.rs:566-648 | without a machine crash a bound fixed name keeps its file and the file its content |
| `ReservationTheorems.StaysIffDurable` | compat/lez-v0_2-sidecar/src/durable_reservation.rs:566-648 | a loadable reservation stays through every run exactly when the directory was synced since its installation |
| `ReservationTheorems.FailureMayInstall` | compat/lez-v0_2-sidecar/src/durable_reservation.rs:566-648 | a concrete run reports a failed creation and then loads its pair, which a crash may still take back |
| `BlockIndex.FindFirst` | deploy/scripts/export-node-evidence.py:146-155 | the search fails exactly when it probes the missing block zero, and otherwise finds the first block of the window or the head |
| `BlockIndex.IndexOfMeans` | deploy/scripts/export-node-evidence.py:164-169 | every transaction of the blocks read is recorded, with the facts of the last read block that holds it, whatever the order |
| `BlockIndex.LezIndex.constructor` | deploy/scripts/export-node-evidence.py:140-142 | a new index is empty |
| `BlockIndex.LezIndex.RecordBlock` | deploy/scripts/export-node-evidence.py:164-169 | both tables record every transaction of the block with its facts |
| `BlockIndex.GetBlocks` | deploy/scripts/export-node-evidence.py:158-160 | a page is its blocks once each, in any order |
| `BlockIndex.Keep` | deploy/scripts/export-node-evidence.py:161 | filtering a page leaves exactly its blocks from the cursor on, once each |
| `BlockIndex.Extremes` | deploy/scripts/export-node-evidence.py:170-171 | the highest id and the earliest timestamp of a page |
| `BlockIndex.LezIndex.RecordPage` | deploy/scripts/export-node-evidence.py:164-169 | the blocks of a page are recorded in the order the node returned them |
| `BlockIndex.LezIndex.ReadPage` | deploy/scripts/export-node-evidence.py:157-170 | a page read backwards from a clipped bound records every block from the cursor on, once, in the node's order, and moves the cursor past them |
| `BlockIndex.LezIndex.Build` | deploy/scripts/export-node-evidence.py:137-172 | it fails exactly when the search probes the missing block; otherwise the index is that of a range that covers the window from 120 seconds before to 600 seconds after, every block read once |
| `BlockIndex.LezIndex.FactsFor` | deploy/scripts/export-node-evidence.py:174-177 | a lookup gives the recorded facts or reports that there are none |
| `BlockIndex.WindowIsIndexed` | deploy/scripts/export-node-evidence.py:137-177 | a transaction of one block in the padded window is found with that block's facts, as a plain filter would |
| `LotPricing.ComputeGcd` | apps/basecamp/scripts/generate-desks.py:592 | the loop computes the recursively defined divisor |
| `LotPricing.GcdIsGreatest` | apps/basecamp/scripts/generate-desks.py:592 | it divides both numbers and every common divisor divides it |
| `LotPricing.LotsReduce` | apps/basecamp/scripts/generate-desks.py:595-596 | both amounts are the same whole number of lots and the lot prices are coprime |
| `LotPricing.QuotableIffWholeLots` | apps/basecamp/scripts/generate-desks.py:598-600 | an amount quotes without remainder exactly when it is a whole number of satoshi lots |
| `LotPricing.ValidMinimumIsWholeLots` | apps/basecamp/scripts/generate-desks.py:597-600 | where its own product is an exact double, the form admits a minimum exactly when it is whole lots up to the offer |
| `LotPricing.RoundedMinimumMayBeRefused` | apps/basecamp/scripts/generate-desks.py:597-600 | a concrete offer beyond exact doubles whose whole amount the form refuses as a minimum |
| `LotPricing.DeskQuotesWholeLots` | apps/basecamp/scripts/generate-desks.py:914-922 | a published offer quotes an amount exactly when it is in bounds, whole lots and exact, at the lot price |
| `LotPricing.DeskQuoteMeans` | apps/basecamp/scripts/generate-desks.py:914-922 | the Desk quotes LEZ for an amount exactly when it is in bounds, the product is an exact double, and the LEZ times the satoshi lot are that product |
| `LotPricing.MarketQuoteMeans` | apps/basecamp/common/node_market.cpp:51-69 | the market module quotes LEZ exactly when both prices are positive exact doubles, the product fits 64 bits, the LEZ is an exact double, and the LEZ times the satoshi lot are that product |
| `LotPricing.WholeOfferQuotesEntered` | apps/basecamp/scripts/generate-desks.py:914-922 | the whole offer quotes to the entered LEZ exactly when the product is an exact double |
| `LotPricing.SomeWholeOffersDoNotQuote` | apps/basecamp/common/node_market.cpp:59-69 | a concrete offer that the market module quotes whole and the Desk does not |
| `LotPricing.SliderStepsQuote` | apps/basecamp/scripts/generate-desks.py:1184-1193 | every slider step from a valid minimum quotes and the last step is the whole offer |
| `LotPricing.ReloadRoundTrip` | apps/basecamp/scripts/generate-desks.py:637-649 | publishing and loading again gives back both amounts where the product is an exact double |
| `LotPricing.RoundedReloadMayDiffer` | apps/basecamp/scripts/generate-desks.py:637-649 | the same concrete offer, its product and then the quotient rounded, loads again with another amount |
| `LotPricing.DeskAndMarketQuotes` | apps/basecamp/common/node_market.cpp:51-69 | what the Desk quotes the market module quotes alike; the converse holds in bounds exactly for exact products |
| `OfferSweep.AfterMeans` | crates/maker-node/src/lib.rs:1405-1416 | the filtered book has exactly the offers above the cursor, in order |
| `OfferSweep.SnapshotPage` | crates/maker-node/src/lib.rs:1417-1448 | a page is the longest prefix within both limits and names its last id if it left any out; it refuses exactly an oversized first offer |
| `OfferSweep.OfferBroadcaster.constructor` | apps/basecamp/common/logos_chat_bridge.h:121 | a new broadcaster starts without a cursor |
| `OfferSweep.OfferBroadcaster.SendAll` | apps/basecamp/common/logos_chat_bridge.cpp:306-320 | every well-formed announcement of a page is attempted, and any malformed or refused one is remembered |
| `OfferSweep.OfferBroadcaster.BroadcastOffers` | apps/basecamp/common/logos_chat_bridge.cpp:284-340 | a turn of a ready object is the specified turn and continues by itself exactly when the page advances; an object that is not an online, subscribed, addressed and connected maker, or is broadcasting already, does nothing |
| `OfferSweep.TurnProgresses` | apps/basecamp/common/logos_chat_bridge.cpp:284-340 | an arriving page ends the sweep exactly when it holds everything above the cursor, and then clears the cursor; otherwise it raises the cursor past an id, or, exactly when it names an id whose text is refused, keeps the cursor; a failed page changes nothing |
| `OfferSweep.SweepServesAll` | apps/basecamp/common/logos_chat_bridge.cpp:284-340 | at every point of a sweep, every well-formed offer present throughout and at or below the cursor has been attempted |
| `OfferSweep.EndedSweepAttemptedAll` | apps/basecamp/common/logos_chat_bridge.cpp:284-340 | an ended sweep has attempted every offer that was there at each of its turns and decodes to between one and 32768 bytes |
| `OfferSweep.OnlyOffersAreAttempted` | apps/basecamp/common/logos_chat_bridge.cpp:284-340 | whatever a sweep attempts was in the book at one of its turns and decodes to between one and 32768 bytes |
| `OfferSweep.SweepEnds` | apps/basecamp/common/logos_chat_bridge.cpp:284-340 | over a finite universe of ids whose text is taken, a sweep ends once more pages arrived than ids were ahead |

## Left out

- Signature schemes, hash functions, account derivation and the borsh, risc0 and JSON codecs: free constructors stand for them.
- The store's byte limit, file permissions, schema, run and runtime fields: an absent file reads as an empty map, and the checks would only add refusals at start.
- The reservation directory's permission, inode and link checks, its lease, byte limits and schema versions: each is a system call that may fail in the model.
- `create_fixed_file_set` and the list of reservation kinds: kinds are numbers, and the file set is not atomic by design.
- The settlement status that the v0.1.2 exact scan reports beside a block: it changes while the block stays canonical, and no verdict depends on it.
- The exact v0.1.2 claim observer's repeated decoding of its own bytes: it only adds refusals.
- `Store.DurableStore.constructor`: an absent file and an empty map are one value; the first persist of an absent file leaves that value or fails the start, which then did not happen.
- `EscrowObservation.ObserveEscrow`: the metadata account is its status and whether its other fields match, not the fields one by one.
- `BridgeTheorems.AnswersAgree`: asks that the machine does not crash while a start over an unsynced file is exposed, because it is false without that; the exact condition for one answer is `AnswerIsFinalIffFilesAgree`.
- `LotPricing.ValidMinimumIsWholeLots`: says nothing where the minimum's product is not an exact double, because the form then tests a rounded product; `RoundedMinimumMayBeRefused` is such a case.
- `LotPricing.ReloadRoundTrip`: says nothing where the product is not an exact double; `RoundedReloadMayDiffer` is such a case.
- `BlockIndex.LezIndex.Build`: the chain may have grown after its head was read, but does not shrink or change; timestamps do not decrease.
- Offer ids are compared as numbers; the order of strings in the two languages is not modelled.
- The rest of the v0.2 sidecar (assets, XMR, vault claims), the HTTP server, its middleware and its error texts.
- The swap coordinator and the refund timing rules of the deployment, whose code is not part of this model.
- The Desk's layout, labels, spreads and rates, the market module's row formatting, and the chat session and outbox.
- Test drivers, recorders, validators and deployment scripts.
