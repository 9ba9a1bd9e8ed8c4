/**
 The durable idempotency map of the v0.1.2 sidecar: every request id is answered from it, and on
 start it is validated and replayed into an empty planner.

 A file is replaced by writing a temporary, syncing it, renaming it over the path and syncing the
 directory. Until the directory is synced a machine crash may bring back an older file, so the disk
 is the file seen now together with every file a crash could leave.
 */
module Store {
  import opened Wrappers
  import opened Nssa
  import opened Planner

  const MAX_STORE_ENTRIES: nat := 4096

  datatype Rpc =
    | DescribeRuntime | PrepareNativeEscrow | PrepareRevealingClaim | PrepareNativeRefund
    | ObserveEscrow | ObserveRevealingClaim | ObserveNativeRefund | SubmitTransaction

  predicate IsPrepare(rpc: Rpc) {
    rpc == PrepareNativeEscrow || rpc == PrepareRevealingClaim || rpc == PrepareNativeRefund
  }

  datatype Request =
    | Describe(description: Context)
    | ForEscrow(escrow: EscrowRequest)
    | ForClaim(claim: ClaimRequest)
    | ForRefund(refund: RefundRequest)
    | ForObservation(kind: Rpc, context: Context, runtime: Runtime, target: nat)
    | ForSubmission(context: Context, runtime: Runtime, transaction: Prepared)
  {
    function Ctx(): Context {
      match this
      case Describe(context) => context
      case ForEscrow(r) => r.context
      case ForClaim(r) => r.context
      case ForRefund(r) => r.context
      case ForObservation(_, context, _, _) => context
      case ForSubmission(context, _, _) => context
    }

    function Id(): RequestId { Ctx().requestId }

    /** The method a request is sent under; anything but the three observations reads as one of them. */
    function Rpc(): Rpc {
      match this
      case Describe(_) => DescribeRuntime
      case ForEscrow(_) => PrepareNativeEscrow
      case ForClaim(_) => PrepareRevealingClaim
      case ForRefund(_) => PrepareNativeRefund
      case ForObservation(kind, _, _, _) =>
        if kind == ObserveRevealingClaim || kind == ObserveNativeRefund then kind else ObserveEscrow
      case ForSubmission(_, _, _) => SubmitTransaction
    }
  }

  /** The canonical request hash under which an entry is stored. */
  datatype Digest = Sha(request: Request)

  datatype Value =
    | EscrowValue(escrow: EscrowResult)
    | ClaimValue(claim: ClaimResult)
    | RefundValue(refund: RefundResult)
    | SubmissionValue(context: Context, id: TransactionId)
    | FactsValue(facts: nat)

  datatype Failure =
    | InvalidRequest | Internal | WrongRole | InvalidTransaction | Unavailable
    | UnknownSubmission | Moving | Ambiguous

  datatype Reply = Reply(context: Context, failure: Failure)

  datatype Outcome = Success(value: Value) | Failed(reply: Reply) | SubmissionInFlight(reply: Reply)

  datatype Entry = Entry(rpc: Rpc, digest: Digest, replayRequest: Option<Request>, outcome: Outcome)

  type Entries = map<RequestId, Entry>

  // ----- The disk -----------------------------------------------------------------------------

  /** How a replacement of the file ends. */
  datatype Fault = Completes | FailsBeforeRename | FailsAfterRename

  /** The file visible now, and every file a machine crash could leave in its place. */
  datatype Disk = Disk(visible: Entries, possible: set<Entries>)

  function Persist(disk: Disk, entries: Entries, fault: Fault): Disk {
    match fault
    case Completes => Disk(entries, {entries})
    case FailsBeforeRename => disk
    case FailsAfterRename => Disk(entries, disk.possible + {entries})
  }

  datatype StoreState = StoreState(entries: Entries, dirty: bool, disk: Disk)

  function PersistState(store: StoreState, fault: Fault): StoreState {
    StoreState(store.entries, if fault == Completes then false else store.dirty,
               Persist(store.disk, store.entries, fault))
  }

  // ----- Replay, reserve, finish ----------------------------------------------------------------

  function ReplayRequest(request: Request): Option<Request> {
    if IsPrepare(request.Rpc()) then Some(request) else None
  }

  datatype Replayed = Replayed(store: StoreState, answer: Result<Option<Outcome>, Failure>)

  function Replay(store: StoreState, request: Request, fault: Fault): Replayed {
    var id := request.Id();
    if id !in store.entries then Replayed(store, Ok(None))
    else
      var cached := store.entries[id];
      if cached.rpc != request.Rpc() || cached.digest != Sha(request) then Replayed(store, Err(InvalidRequest))
      else if !store.dirty then Replayed(store, Ok(Some(cached.outcome)))
      else
        Replayed(PersistState(store, fault), if fault == Completes then Ok(Some(cached.outcome)) else Err(Internal))
  }

  function InsertAndPersist(store: StoreState, request: Request, replay: Option<Request>, outcome: Outcome,
                            fault: Fault): StoreState {
    var entry := Entry(request.Rpc(), Sha(request), replay, outcome);
    PersistState(store.(entries := store.entries[request.Id() := entry], dirty := true), fault)
  }

  function InFlight(request: Request): Outcome {
    SubmissionInFlight(Reply(request.Ctx(), UnknownSubmission))
  }

  datatype Reserved = Reserved(store: StoreState, refusal: Option<Failure>)

  function Reserve(store: StoreState, request: Request, fault: Fault): Reserved {
    if |store.entries| >= MAX_STORE_ENTRIES then Reserved(store, Some(Internal))
    else if request.Rpc() != SubmitTransaction then Reserved(store, None)
    else Reserved(InsertAndPersist(store, request, None, InFlight(request), fault),
                  if fault == Completes then None else Some(Internal))
  }

  function Finish(store: StoreState, request: Request, outcome: Outcome, fault: Fault): StoreState {
    InsertAndPersist(store, request, ReplayRequest(request), outcome, fault)
  }

  // ----- Opening and restoring ------------------------------------------------------------------

  /** The validation of `open`: a bounded map whose replay requests belong to prepare methods. */
  predicate OpenAccepts(entries: Entries) {
    && |entries| <= MAX_STORE_ENTRIES
    && forall id :: id in entries && entries[id].replayRequest.Some? ==> IsPrepare(entries[id].rpc)
  }

  /** Whether a stored request and value are of the types that one prepare method decodes. */
  predicate TypesMatch(rpc: Rpc, request: Request, value: Value) {
    match rpc
    case PrepareNativeEscrow => request.ForEscrow? && value.EscrowValue?
    case PrepareRevealingClaim => request.ForClaim? && value.ClaimValue?
    case PrepareNativeRefund => request.ForRefund? && value.RefundValue?
    case _ => false
  }

  function DecodeEntry(entry: Entry): (r: Result<(Request, Value), ()>)
    ensures r.Ok? ==> TypesMatch(entry.rpc, r.value.0, r.value.1)
  {
    if !entry.outcome.Success? || entry.replayRequest.None? then Err(())
    else if Sha(entry.replayRequest.value) != entry.digest then Err(())
    else if !TypesMatch(entry.rpc, entry.replayRequest.value, entry.outcome.value) then Err(())
    else Ok((entry.replayRequest.value, entry.outcome.value))
  }

  ghost function Successes(entries: Entries, rpc: Rpc): set<RequestId> {
    set id | id in entries && entries[id].rpc == rpc && entries[id].outcome.Success?
  }

  /** What `restored_prepare`, `restored_claim` and `restored_refund` answer for their method. */
  ghost function RestoredEntry(entries: Entries, rpc: Rpc): (r: Result<Option<(Request, Value)>, ()>)
    ensures r.Ok? && r.value.Some? ==> TypesMatch(rpc, r.value.value.0, r.value.value.1)
  {
    var ids := Successes(entries, rpc);
    if ids == {} then Ok(None)
    else
      var id :| id in ids;
      if ids != {id} then Err(())
      else
        match DecodeEntry(entries[id])
        case Err(_) => Err(())
        case Ok(pair) => Ok(Some(pair))
  }

  /** A restored request and value of one method, if there is one. */
  predicate Decoded(rpc: Rpc, restored: Option<(Request, Value)>) {
    restored.Some? ==> TypesMatch(rpc, restored.value.0, restored.value.1)
  }

  /** Replaying at most one preparation of each method, in order, into an empty planner. */
  function ReplayInto(config: Config, pair: Option<(Request, Value)>, claim: Option<(Request, Value)>,
                      refund: Option<(Request, Value)>)
    : Result<PlannerState, ()>
    requires Decoded(PrepareNativeEscrow, pair) && Decoded(PrepareRevealingClaim, claim)
             && Decoded(PrepareNativeRefund, refund)
  {
    var withPair := if pair.None? then Planned(EMPTY_PLANNER, Ok(()))
                    else RestorePair(config, EMPTY_PLANNER, pair.value.0.escrow, pair.value.1.escrow);
    if withPair.result.Err? then Err(())
    else
      var withClaim := if claim.None? then withPair
                       else RestoreClaim(config, withPair.state, claim.value.0.claim, claim.value.1.claim);
      if withClaim.result.Err? then Err(())
      else
        var withRefund := if refund.None? then withClaim
                          else RestoreRefund(config, withClaim.state, refund.value.0.refund, refund.value.1.refund);
        if withRefund.result.Err? then Err(()) else Ok(withRefund.state)
  }

  /** Opening the map and replaying its successful preparations into an empty planner. */
  ghost function Start(config: Config, entries: Entries): Result<PlannerState, ()> {
    if !OpenAccepts(entries) then Err(())
    else
      var pair := RestoredEntry(entries, PrepareNativeEscrow);
      var claim := RestoredEntry(entries, PrepareRevealingClaim);
      var refund := RestoredEntry(entries, PrepareNativeRefund);
      if pair.Err? || claim.Err? || refund.Err? then Err(())
      else ReplayInto(config, pair.value, claim.value, refund.value)
  }

  // ----- The coupling of map and planner ----------------------------------------------------------

  /**
   An entry is filed under the id, method and hash of one request, kept for replay exactly when it is a
   preparation.
   */
  predicate EntryOk(id: RequestId, entry: Entry) {
    var request := entry.digest.request;
    && request.Id() == id
    && entry.rpc == request.Rpc()
    && entry.replayRequest == ReplayRequest(request)
    && (entry.outcome.SubmissionInFlight? ==> entry.rpc == SubmitTransaction)
  }

  /** A planner holds a request and the value prepared for it. */
  predicate Holds(planner: PlannerState, request: Request, value: Value) {
    match request
    case ForEscrow(r) => value.EscrowValue? && planner.native == Some(ActivePair(r, value.escrow))
    case ForClaim(r) => value.ClaimValue? && planner.claim == Some(RememberClaim(r, value.claim))
    case ForRefund(r) => value.RefundValue? && planner.refund == Some(ActiveRefund(r, value.refund))
    case _ => true
  }

  /** Every successful preparation in the map is held, request and result, by the planner's slot. */
  ghost predicate Coupled(entries: Entries, planner: PlannerState) {
    forall id :: id in entries && entries[id].outcome.Success? ==>
      Holds(planner, entries[id].digest.request, entries[id].outcome.value)
  }

  ghost predicate EntriesOk(entries: Entries) {
    && |entries| <= MAX_STORE_ENTRIES
    && forall id :: id in entries ==> EntryOk(id, entries[id])
  }

  /** A map that some correct planner could have produced. */
  ghost predicate Restorable(config: Config, entries: Entries) {
    EntriesOk(entries) && exists planner :: PlannerInv(config, planner) && Coupled(entries, planner)
  }

  /** The coupling leaves room for one successful entry of each prepare method. */
  lemma OneSuccess(entries: Entries, planner: PlannerState, rpc: Rpc, a: RequestId, b: RequestId)
    requires EntriesOk(entries) && Coupled(entries, planner) && IsPrepare(rpc)
    requires a in Successes(entries, rpc) && b in Successes(entries, rpc)
    ensures a == b
  {
    assert EntryOk(a, entries[a]) && EntryOk(b, entries[b]);
    assert Holds(planner, entries[a].digest.request, entries[a].outcome.value);
    assert Holds(planner, entries[b].digest.request, entries[b].outcome.value);
  }

  /** What restoring one method yields on a coupled map: nothing, or exactly the planner's own slot. */
  lemma RestoredIsHeld(entries: Entries, planner: PlannerState, rpc: Rpc)
    requires EntriesOk(entries) && Coupled(entries, planner) && IsPrepare(rpc)
    ensures var r := RestoredEntry(entries, rpc);
            && r.Ok?
            && (r.value.None? <==> Successes(entries, rpc) == {})
            && (r.value.Some? ==> Holds(planner, r.value.value.0, r.value.value.1))
            && forall id :: id in Successes(entries, rpc) ==>
                 r.value == Some((entries[id].digest.request, entries[id].outcome.value))
  {
    var ids := Successes(entries, rpc);
    forall a, b | a in ids && b in ids ensures a == b { OneSuccess(entries, planner, rpc, a, b); }
    forall id | id in ids
        ensures ids == {id} && DecodeEntry(entries[id]) == Ok((entries[id].digest.request, entries[id].outcome.value)) {
      assert EntryOk(id, entries[id]);
      assert Holds(planner, entries[id].digest.request, entries[id].outcome.value);
    }
  }

  /**
   Every coupled map opens and restores without error, and the restored planner holds exactly the
   map's successful preparations: coupled again, and a slot is filled only by such an entry.
   */
  lemma StartRestores(config: Config, entries: Entries, planner: PlannerState)
    requires EntriesOk(entries) && PlannerInv(config, planner) && Coupled(entries, planner)
    ensures Start(config, entries).Ok?
    ensures var restored := Start(config, entries).value;
            && PlannerInv(config, restored) && Coupled(entries, restored) && Grows(restored, planner)
            && (restored.native.Some? <==> Successes(entries, PrepareNativeEscrow) != {})
            && (restored.claim.Some? <==> Successes(entries, PrepareRevealingClaim) != {})
            && (restored.refund.Some? <==> Successes(entries, PrepareNativeRefund) != {})
  {
    RestoredIsHeld(entries, planner, PrepareNativeEscrow);
    RestoredIsHeld(entries, planner, PrepareRevealingClaim);
    RestoredIsHeld(entries, planner, PrepareNativeRefund);
    EntriesOpen(entries);
    ReplayRestores(config, planner, RestoredEntry(entries, PrepareNativeEscrow).value,
                   RestoredEntry(entries, PrepareRevealingClaim).value,
                   RestoredEntry(entries, PrepareNativeRefund).value);
    RestoredIsCoupled(entries, planner, Start(config, entries).value);
  }

  /** Replaying what a correct planner holds succeeds, and fills exactly those slots as that planner has them. */
  lemma ReplayRestores(config: Config, planner: PlannerState, pair: Option<(Request, Value)>,
                       claim: Option<(Request, Value)>, refund: Option<(Request, Value)>)
    requires Decoded(PrepareNativeEscrow, pair) && Decoded(PrepareRevealingClaim, claim)
             && Decoded(PrepareNativeRefund, refund)
    requires PlannerInv(config, planner)
    requires pair.Some? ==> Holds(planner, pair.value.0, pair.value.1)
    requires claim.Some? ==> Holds(planner, claim.value.0, claim.value.1)
    requires refund.Some? ==> Holds(planner, refund.value.0, refund.value.1)
    ensures ReplayInto(config, pair, claim, refund)
         == Ok(planner.(native := if pair.Some? then planner.native else None,
                        claim := if claim.Some? then planner.claim else None,
                        refund := if refund.Some? then planner.refund else None))
    ensures PlannerInv(config, ReplayInto(config, pair, claim, refund).value)
  {
  }

  lemma EntriesOpen(entries: Entries)
    requires EntriesOk(entries)
    ensures OpenAccepts(entries)
  {
    forall id | id in entries && entries[id].replayRequest.Some? ensures IsPrepare(entries[id].rpc) {
      assert EntryOk(id, entries[id]);
    }
  }

  ghost predicate HoldsRestored(entries: Entries, rpc: Rpc, planner: PlannerState) {
    var restored := RestoredEntry(entries, rpc);
    restored.Ok? && restored.value.Some? ==> Holds(planner, restored.value.value.0, restored.value.value.1)
  }

  /** A planner that holds what each method restores is coupled to the map. */
  lemma RestoredIsCoupled(entries: Entries, planner: PlannerState, restored: PlannerState)
    requires EntriesOk(entries) && Coupled(entries, planner)
    requires HoldsRestored(entries, PrepareNativeEscrow, restored)
             && HoldsRestored(entries, PrepareRevealingClaim, restored)
    requires HoldsRestored(entries, PrepareNativeRefund, restored)
    ensures Coupled(entries, restored)
  {
    forall id | id in entries && entries[id].outcome.Success?
      ensures Holds(restored, entries[id].digest.request, entries[id].outcome.value)
    {
      var rpc := entries[id].rpc;
      assert EntryOk(id, entries[id]);
      if IsPrepare(rpc) {
        RestoredIsHeld(entries, planner, rpc);
        assert id in Successes(entries, rpc);
      }
    }
  }

  // ----- The store object -------------------------------------------------------------------------

  class DurableStore {
    var entries: Entries
    var dirty: bool
    var disk: Disk

    function State(): StoreState
      reads this
    {
      StoreState(entries, dirty, disk)
    }

    /** Clean memory is what the path shows; the path is among the files a crash could leave. */
    ghost predicate Valid()
      reads this
    {
      && disk.visible in disk.possible
      && (!dirty ==> disk.visible == entries)
    }

    constructor (disk: Disk)
      requires disk.visible in disk.possible
      ensures Valid() && State() == StoreState(disk.visible, false, disk)
    {
      entries, dirty, this.disk := disk.visible, false, disk;
    }

    method PersistFile(fault: Fault) returns (ok: bool)
      modifies this`disk
      ensures disk == Persist(old(disk), entries, fault) && ok == (fault == Completes)
    {
      if fault == FailsBeforeRename { return false; }
      if fault == FailsAfterRename {
        disk := Disk(entries, disk.possible + {entries});
        return false;
      }
      disk := Disk(entries, {entries});
      return true;
    }

    method ReplayAnswer(request: Request, fault: Fault) returns (answer: Result<Option<Outcome>, Failure>)
      requires Valid()
      modifies this
      ensures Valid() && Replayed(State(), answer) == Replay(old(State()), request, fault)
      ensures answer.Ok? && answer.value.Some? ==> !dirty && disk.visible == entries
    {
      var id := request.Id();
      if id !in entries { return Ok(None); }
      var cached := entries[id];
      if cached.rpc != request.Rpc() || cached.digest != Sha(request) { return Err(InvalidRequest); }
      if dirty {
        var ok := PersistFile(fault);
        if !ok { return Err(Internal); }
        dirty := false;
      }
      return Ok(Some(cached.outcome));
    }

    method ReserveSlot(request: Request, fault: Fault) returns (refusal: Option<Failure>)
      requires Valid()
      modifies this
      ensures Valid() && Reserved(State(), refusal) == Reserve(old(State()), request, fault)
    {
      if |entries| >= MAX_STORE_ENTRIES { return Some(Internal); }
      if request.Rpc() != SubmitTransaction { return None; }
      entries := entries[request.Id() := Entry(request.Rpc(), Sha(request), None, InFlight(request))];
      dirty := true;
      var ok := PersistFile(fault);
      if !ok { return Some(Internal); }
      dirty := false;
      return None;
    }

    method FinishRequest(request: Request, outcome: Outcome, fault: Fault) returns (ok: bool)
      requires Valid()
      modifies this
      ensures Valid() && State() == Finish(old(State()), request, outcome, fault) && ok == (fault == Completes)
    {
      entries := entries[request.Id() := Entry(request.Rpc(), Sha(request), ReplayRequest(request), outcome)];
      dirty := true;
      ok := PersistFile(fault);
      if ok { dirty := false; }
    }
  }

  /** The three answers of a restoring pass, by how many successes the map holds. */
  lemma RestoredByCount(entries: Entries, rpc: Rpc, ids: set<RequestId>)
    requires ids == Successes(entries, rpc)
    ensures ids == {} ==> RestoredEntry(entries, rpc) == Ok(None)
    ensures forall a, b :: a in ids && b in ids && a != b ==> RestoredEntry(entries, rpc).Err?
    ensures forall id :: ids == {id} ==>
              RestoredEntry(entries, rpc)
                  == match DecodeEntry(entries[id]) case Ok(pair) => Ok(Some(pair)) case Err(_) => Err(())
  {
  }

  /** One pass over the entries, refusing a second success or one that does not decode. */
  method Restored(entries: Entries, rpc: Rpc) returns (r: Result<Option<(Request, Value)>, ()>)
    ensures r == RestoredEntry(entries, rpc)
  {
    ghost var ids := Successes(entries, rpc);
    RestoredByCount(entries, rpc, ids);
    var restored: Option<(Request, Value)> := None;
    var rest := entries.Keys;
    ghost var first := 0;
    while rest != {}
      invariant rest <= entries.Keys
      invariant restored.None? ==> ids <= rest
      invariant restored.Some? ==> first in ids && ids - {first} <= rest && first !in rest
      invariant restored.Some? ==> DecodeEntry(entries[first]) == Ok(restored.value)
      decreases |rest|
    {
      var id :| id in rest;
      rest := rest - {id};
      if entries[id].rpc == rpc && entries[id].outcome.Success? {
        assert id in ids;
        var decoded := DecodeEntry(entries[id]);
        if restored.Some? || decoded.Err? {
          assert restored.None? && ids != {id} ==> exists other :: other in ids && other != id;
          return Err(());
        }
        first, restored := id, Some(decoded.value);
      }
    }
    assert restored.Some? ==> ids == {first};
    return Ok(restored);
  }
}
