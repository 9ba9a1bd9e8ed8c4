/**
 The bridge server as a transition system: one request at a time is replayed, reserved, operated
 and finished; persistence may fail at either side of the rename, the operation may be cancelled,
 the process or the machine may crash at any point, and the server may start again.

 `sends` and `replies` are the whole history of transactions handed to the node and of stored
 outcomes answered to clients. Every theorem is about all runs from an empty disk.
 */
module Bridge {
  import opened Wrappers
  import opened Nssa
  import opened Planner
  import opened Store

  datatype Sidecar = Sidecar(run: nat, config: Config)

  datatype Stage = Guarded | Operated(outcome: Outcome)
  datatype Running = Running(request: Request, stage: Stage)

  datatype Server = Down | Up(entries: Entries, dirty: bool, planner: PlannerState, running: Option<Running>)

  datatype Send = Send(id: RequestId, transaction: PublicTransaction)
  datatype Answer = Answer(request: Request, outcome: Outcome)

  datatype World = World(disk: Disk, server: Server, sends: seq<Send>, replies: seq<Answer>)

  const EMPTY_DISK := Disk(map[], {map[]})
  const INITIAL := World(EMPTY_DISK, Down, [], [])

  // ----- One operation ------------------------------------------------------------------------

  /** `validate_context` and `validate_runtime`: refused requests never reach the store. */
  predicate Accepts(side: Sidecar, request: Request) {
    var context := request.Ctx();
    && context.runId == side.run
    && context.role == side.config.runtime.role
    && match request
       case Describe(_) => true
       case ForEscrow(r) => r.runtime == side.config.runtime
       case ForClaim(r) => r.runtime == side.config.runtime
       case ForRefund(r) => r.runtime == side.config.runtime
       case ForObservation(_, _, runtime, _) => runtime == side.config.runtime
       case ForSubmission(_, runtime, _) => runtime == side.config.runtime
  }

  datatype NodeAnswer = SameHash | OtherHash | InvalidParameters | NoAnswer

  /** Everything the outside world decides during one operation. */
  datatype Env = Env(nonce: Option<u128>, entropy: (nat, nat), node: NodeAnswer, facts: Result<nat, SidecarError>)

  function FailureOf(error: SidecarError): Failure {
    match error
    case WrongSidecarRole | WrongClaimantRole => WrongRole
    case NodeRejected | TransactionNotPrepared | InvalidTransactionBytes | WrongTransactionId | InvalidSignature =>
      InvalidTransaction
    case UnknownSubmissionOutcome => UnknownSubmission
    case MovingTip => Moving
    case AmbiguousDiscovery => Ambiguous
    case NonceUnavailable | NodeObservationUnavailable | InvalidNodeResponse => Unavailable
    case _ => InvalidRequest
  }

  function OutcomeOf(request: Request, result: Result<Value, SidecarError>): Outcome {
    match result
    case Ok(value) => Success(value)
    case Err(error) => Failed(Reply(request.Ctx(), FailureOf(error)))
  }

  /** The planner after an operation, its outcome, and the transaction it handed to the node, if any. */
  datatype Operation = Operation(planner: PlannerState, outcome: Outcome, handed: Option<PublicTransaction>)

  /** `submit_exact`: only exact held bytes reach the node, and only a matching hash is a success. */
  function Submit(side: Sidecar, planner: PlannerState, request: Request, node: NodeAnswer): Operation
    requires request.ForSubmission?
  {
    var decoded := if request.context.role != side.config.role then Err(WrongSidecarRole)
                   else if request.runtime != side.config.runtime then Err(WrongRuntimeIdentity)
                   else DecodeExactForSubmission(side.config, planner, request.transaction, request.context.role);
    if decoded.Err? then Operation(planner, OutcomeOf(request, Err(decoded.error)), None)
    else
      var result := match node
        case SameHash => Ok(SubmissionValue(request.context, request.transaction.id))
        case InvalidParameters => Err(NodeRejected)
        case OtherHash => Err(UnknownSubmissionOutcome)
        case NoAnswer => Err(UnknownSubmissionOutcome);
      Operation(planner, OutcomeOf(request, result), Some(decoded.value))
  }

  function Operate(side: Sidecar, planner: PlannerState, request: Request, env: Env): Operation {
    match request
    case Describe(_) => Operation(planner, Success(FactsValue(0)), None)
    case ForEscrow(r) =>
      var p := PrepareEscrow(side.config, planner, r, env.nonce, env.entropy);
      Operation(p.state, OutcomeOf(request, if p.result.Ok? then Ok(EscrowValue(p.result.value))
                                   else Err(p.result.error)), None)
    case ForClaim(r) =>
      var p := PrepareClaim(side.config, planner, r, env.nonce, env.entropy.0);
      Operation(p.state, OutcomeOf(request, if p.result.Ok? then Ok(ClaimValue(p.result.value))
                                   else Err(p.result.error)), None)
    case ForRefund(r) =>
      var p := PrepareRefund(side.config, planner, r);
      Operation(p.state, OutcomeOf(request, if p.result.Ok? then Ok(RefundValue(p.result.value))
                                   else Err(p.result.error)), None)
    case ForObservation(_, _, _, _) =>
      Operation(planner, OutcomeOf(request, if env.facts.Ok? then Ok(FactsValue(env.facts.value))
                                   else Err(env.facts.error)), None)
    case ForSubmission(_, _, _) => Submit(side, planner, request, env.node)
  }

  // ----- Steps ----------------------------------------------------------------------------------

  datatype Step =
    | Begin(request: Request, fault: Fault)
    | Perform(env: Env)
    | Complete(fault: Fault)
    | Cancel
    | KillProcess
    | CrashMachine(survivor: Entries)
    | Restart

  predicate Idle(w: World) { w.server.Up? && w.server.running.None? }

  function StoreOf(w: World): StoreState
    requires w.server.Up?
  {
    StoreState(w.server.entries, w.server.dirty, w.disk)
  }

  function WithStore(w: World, store: StoreState, running: Option<Running>): World
    requires w.server.Up?
  {
    w.(disk := store.disk, server := w.server.(entries := store.entries, dirty := store.dirty, running := running))
  }

  function AfterReserve(w: World, request: Request, fault: Fault): World
    requires Idle(w)
  {
    var reserved := Reserve(StoreOf(w), request, fault);
    WithStore(w, reserved.store, if reserved.refusal.Some? then None else Some(Running(request, Guarded)))
  }

  /** Replay answers a stored outcome, or the request is reserved and left to be performed. */
  function AfterBegin(side: Sidecar, w: World, request: Request, fault: Fault): World {
    if !Idle(w) || !Accepts(side, request) then w
    else
      var replayed := Replay(StoreOf(w), request, fault);
      if replayed.answer.Err? then WithStore(w, replayed.store, None)
      else if replayed.answer.value.Some? then
        WithStore(w, replayed.store, None).(replies := w.replies + [Answer(request, replayed.answer.value.value)])
      else AfterReserve(w, request, fault)
  }

  predicate AtStage(w: World, operated: bool) {
    w.server.Up? && w.server.running.Some? && w.server.running.value.stage.Operated? == operated
  }

  function AfterPerform(side: Sidecar, w: World, env: Env): World {
    if !AtStage(w, false) then w
    else
      var request := w.server.running.value.request;
      var operation := Operate(side, w.server.planner, request, env);
      w.(server := w.server.(planner := operation.planner,
                             running := Some(Running(request, Operated(operation.outcome)))),
         sends := if operation.handed.Some? then w.sends + [Send(request.Id(), operation.handed.value)] else w.sends)
  }

  function AfterComplete(w: World, fault: Fault): World {
    if !AtStage(w, true) then w
    else
      var Running(request, stage) := w.server.running.value;
      var done := WithStore(w, Finish(StoreOf(w), request, stage.outcome, fault), None);
      if fault == Completes then done.(replies := w.replies + [Answer(request, stage.outcome)]) else done
  }

  ghost function AfterRestart(side: Sidecar, w: World): World {
    if w.server.Up? then w
    else
      var started := Start(side.config, w.disk.visible);
      if started.Err? then w else w.(server := Up(w.disk.visible, false, started.value, None))
  }

  ghost function Apply(side: Sidecar, w: World, step: Step): World {
    match step
    case Begin(request, fault) => AfterBegin(side, w, request, fault)
    case Perform(env) => AfterPerform(side, w, env)
    case Complete(fault) => AfterComplete(w, fault)
    case Cancel => if w.server.Up? then w.(server := w.server.(running := None)) else w
    case KillProcess => w.(server := Down)
    case CrashMachine(survivor) =>
      if survivor in w.disk.possible then w.(disk := Disk(survivor, {survivor}), server := Down) else w
    case Restart => AfterRestart(side, w)
  }

  ghost function Run(side: Sidecar, w: World, steps: seq<Step>): World
    decreases |steps|
  {
    if steps == [] then w else Run(side, Apply(side, w, steps[0]), steps[1..])
  }

  // ----- The invariant --------------------------------------------------------------------------

  ghost predicate Everywhere(disk: Disk, id: RequestId) {
    forall m :: m in disk.possible ==> id in m
  }

  ghost predicate DiskInv(side: Sidecar, disk: Disk) {
    && disk.visible in disk.possible
    && (forall m :: m in disk.possible ==> Restorable(side.config, m))
    && (forall m :: m in disk.possible ==> SameRequests(m, disk.visible))
  }

  /** Whatever `older` stores, `newer` stores under the same id for the same request. */
  ghost predicate SameRequests(older: Entries, newer: Entries) {
    forall id :: id in older ==> id in newer && newer[id].digest == older[id].digest
  }

  ghost predicate RunningInv(w: World)
    requires w.server.Up? && w.server.running.Some?
  {
    var Running(request, stage) := w.server.running.value;
    var id := request.Id();
    && (request.Rpc() == SubmitTransaction ==>
          id in w.server.entries && w.server.entries[id].digest == Sha(request) && Everywhere(w.disk, id))
    && (request.Rpc() != SubmitTransaction ==> id !in w.server.entries && |w.server.entries| < MAX_STORE_ENTRIES)
    && (stage.Operated? ==> !stage.outcome.SubmissionInFlight?)
    && (stage.Operated? && stage.outcome.Success? ==> Holds(w.server.planner, request, stage.outcome.value))
    && (stage.Guarded? ==> forall i :: 0 <= i < |w.sends| ==> w.sends[i].id != id)
  }

  /** Memory couples to the planner, and a clean memory is the file on disk. */
  ghost predicate ServerInv(side: Sidecar, w: World) {
    w.server.Up? ==>
      && EntriesOk(w.server.entries)
      && PlannerInv(side.config, w.server.planner)
      && Coupled(w.server.entries, w.server.planner)
      && SameRequests(w.disk.visible, w.server.entries)
      && (!w.server.dirty ==> w.disk.visible == w.server.entries)
      && (w.server.running.Some? ==> RunningInv(w))
  }

  /** Each id was sent for at most once, and its guard is on every file a crash could leave. */
  ghost predicate SendsInv(w: World) {
    && (forall i, j :: 0 <= i < j < |w.sends| ==> w.sends[i].id != w.sends[j].id)
    && (forall i :: 0 <= i < |w.sends| ==> Everywhere(w.disk, w.sends[i].id))
    && (forall i :: 0 <= i < |w.sends| ==> w.server.Up? ==> w.sends[i].id in w.server.entries)
  }

  ghost predicate WorldInv(side: Sidecar, w: World) {
    DiskInv(side, w.disk) && ServerInv(side, w) && SendsInv(w)
  }

  lemma OperateKeeps(side: Sidecar, planner: PlannerState, request: Request, env: Env)
    requires PlannerInv(side.config, planner)
    ensures var o := Operate(side, planner, request, env);
            && PlannerInv(side.config, o.planner) && Grows(planner, o.planner)
            && !o.outcome.SubmissionInFlight?
            && (o.outcome.Success? ==> Holds(o.planner, request, o.outcome.value))
            && (o.handed.Some? ==> request.ForSubmission? && PreparedFrom(o.handed.value) in Held(planner)
                                   && request.transaction == PreparedFrom(o.handed.value))
  {
    match request
    case ForEscrow(r) => PrepareEscrowKeeps(side.config, planner, r, env.nonce, env.entropy);
    case ForClaim(r) => PrepareClaimKeeps(side.config, planner, r, env.nonce, env.entropy.0);
    case ForRefund(r) => PrepareRefundKeeps(side.config, planner, r);
    case _ =>
  }

  lemma InsertKeeps(entries: Entries, planner: PlannerState, request: Request, outcome: Outcome)
    requires EntriesOk(entries) && Coupled(entries, planner)
    requires request.Id() in entries || |entries| < MAX_STORE_ENTRIES
    requires outcome.SubmissionInFlight? ==> request.Rpc() == SubmitTransaction
    requires outcome.Success? ==> Holds(planner, request, outcome.value)
    ensures var entries' := entries[request.Id() := Entry(request.Rpc(), Sha(request), ReplayRequest(request),
                                                          outcome)];
            EntriesOk(entries') && Coupled(entries', planner)
  {
    var entries' := entries[request.Id() := Entry(request.Rpc(), Sha(request), ReplayRequest(request), outcome)];
    assert entries'.Keys == entries.Keys + {request.Id()};
    assert |entries'| == |entries'.Keys| && |entries| == |entries.Keys|;
  }

  lemma CoupledGrows(entries: Entries, planner: PlannerState, planner': PlannerState)
    requires Coupled(entries, planner) && Grows(planner, planner')
    ensures Coupled(entries, planner')
  {
    forall id | id in entries && entries[id].outcome.Success?
      ensures Holds(planner', entries[id].digest.request, entries[id].outcome.value)
    {
      assert Holds(planner, entries[id].digest.request, entries[id].outcome.value);
    }
  }

  /** Persisting a coupled memory over a good disk leaves a good disk. */
  lemma PersistKeeps(side: Sidecar, disk: Disk, entries: Entries, planner: PlannerState, fault: Fault)
    requires DiskInv(side, disk) && SameRequests(disk.visible, entries)
    requires EntriesOk(entries) && PlannerInv(side.config, planner) && Coupled(entries, planner)
    ensures DiskInv(side, Persist(disk, entries, fault))
    ensures SameRequests(Persist(disk, entries, fault).visible, entries)
    ensures forall id :: id in entries && Everywhere(disk, id) ==> Everywhere(Persist(disk, entries, fault), id)
  {
    assert Restorable(side.config, entries);
  }

  /** Settling memory on disk, with nothing running, keeps the invariant. */
  lemma SettleKeeps(side: Sidecar, w: World, store: StoreState, fault: Fault)
    requires WorldInv(side, w) && Idle(w)
    requires EntriesOk(store.entries) && Coupled(store.entries, w.server.planner)
    requires SameRequests(w.server.entries, store.entries) && store.disk == w.disk
    requires !store.dirty ==> store.entries == w.disk.visible
    ensures WorldInv(side, WithStore(w, PersistState(store, fault), None))
  {
    PersistKeeps(side, w.disk, store.entries, w.server.planner, fault);
  }

  lemma ReserveKeeps(side: Sidecar, w: World, request: Request, fault: Fault)
    requires WorldInv(side, w) && Idle(w) && request.Id() !in w.server.entries
    ensures WorldInv(side, AfterReserve(w, request, fault))
  {
    var entries := w.server.entries;
    if |entries| < MAX_STORE_ENTRIES && request.Rpc() == SubmitTransaction {
      InsertKeeps(entries, w.server.planner, request, InFlight(request));
      var guarded := entries[request.Id() := Entry(request.Rpc(), Sha(request), None, InFlight(request))];
      SettleKeeps(side, w, StoreState(guarded, true, w.disk), fault);
    }
  }

  lemma BeginKeeps(side: Sidecar, w: World, request: Request, fault: Fault)
    requires WorldInv(side, w)
    ensures WorldInv(side, AfterBegin(side, w, request, fault))
  {
    if !Idle(w) || !Accepts(side, request) {
    } else if request.Id() in w.server.entries {
      SettleKeeps(side, w, StoreOf(w), fault);
    } else {
      ReserveKeeps(side, w, request, fault);
    }
  }

  /** A guarded submission that hands a transaction to the node is the first to do so under its id. */
  lemma PerformKeepsSends(side: Sidecar, w: World, env: Env)
    requires WorldInv(side, w) && AtStage(w, false)
    requires Operate(side, w.server.planner, w.server.running.value.request, env).handed.Some? ==>
               w.server.running.value.request.ForSubmission?
    ensures SendsInv(AfterPerform(side, w, env))
  {
    var sends, id := AfterPerform(side, w, env).sends, w.server.running.value.request.Id();
    assert RunningInv(w);
    forall i, j | 0 <= i < j < |sends| ensures sends[i].id != sends[j].id {
      assert i < |w.sends| && (j == |w.sends| ==> sends[j].id == id);
    }
  }

  lemma PerformKeeps(side: Sidecar, w: World, env: Env)
    requires WorldInv(side, w)
    ensures WorldInv(side, AfterPerform(side, w, env))
  {
    if AtStage(w, false) {
      var request := w.server.running.value.request;
      OperateKeeps(side, w.server.planner, request, env);
      CoupledGrows(w.server.entries, w.server.planner, Operate(side, w.server.planner, request, env).planner);
      PerformKeepsSends(side, w, env);
    }
  }

  lemma CompleteKeeps(side: Sidecar, w: World, fault: Fault)
    requires WorldInv(side, w)
    ensures WorldInv(side, AfterComplete(w, fault))
  {
    if AtStage(w, true) {
      var Running(request, stage) := w.server.running.value;
      InsertKeeps(w.server.entries, w.server.planner, request, stage.outcome);
      var entries' := w.server.entries[request.Id() := Entry(request.Rpc(), Sha(request), ReplayRequest(request),
                                                             stage.outcome)];
      PersistKeeps(side, w.disk, entries', w.server.planner, fault);
    }
  }

  lemma RestartKeeps(side: Sidecar, w: World)
    requires WorldInv(side, w)
    ensures WorldInv(side, AfterRestart(side, w))
    ensures AfterRestart(side, w).server.Up?
    ensures w.server.Down? ==>
              AfterRestart(side, w) == w.(server := Up(w.disk.visible, false, AfterRestart(side, w).server.planner,
                                                       None))
  {
    if w.server.Down? {
      assert Restorable(side.config, w.disk.visible);
      var planner :| PlannerInv(side.config, planner) && Coupled(w.disk.visible, planner);
      StartRestores(side.config, w.disk.visible, planner);
    }
  }

  lemma StepKeeps(side: Sidecar, w: World, step: Step)
    requires WorldInv(side, w)
    ensures WorldInv(side, Apply(side, w, step))
  {
    match step
    case Begin(request, fault) => BeginKeeps(side, w, request, fault);
    case Perform(env) => PerformKeeps(side, w, env);
    case Complete(fault) => CompleteKeeps(side, w, fault);
    case Restart => RestartKeeps(side, w);
    case _ =>
  }

  lemma InitialInv(side: Sidecar)
    ensures WorldInv(side, INITIAL)
  {
    assert PlannerInv(side.config, EMPTY_PLANNER) && Coupled(map[], EMPTY_PLANNER);
  }

  lemma {:induction false} RunKeeps(side: Sidecar, w: World, steps: seq<Step>)
    requires WorldInv(side, w)
    ensures WorldInv(side, Run(side, w, steps))
    decreases |steps|
  {
    if steps != [] {
      StepKeeps(side, w, steps[0]);
      RunKeeps(side, Apply(side, w, steps[0]), steps[1..]);
    }
  }

  // ----- Short runs -----------------------------------------------------------------------------

  lemma RunOne(side: Sidecar, w: World, a: Step)
    ensures Run(side, w, [a]) == Apply(side, w, a)
  {
    assert [a][1..] == [];
    assert Run(side, w, [a]) == Run(side, Apply(side, w, a), [a][1..]);
  }

  lemma RunThree(side: Sidecar, w: World, a: Step, b: Step, c: Step, rest: seq<Step>)
    ensures Run(side, w, [a, b, c] + rest) == Run(side, Apply(side, Apply(side, Apply(side, w, a), b), c), rest)
  {
    var steps := [a, b, c] + rest;
    var w1 := Apply(side, w, a);
    var w2 := Apply(side, w1, b);
    assert steps[1..][1..][1..] == rest;
    assert Run(side, w, steps) == Run(side, w1, steps[1..]);
    assert Run(side, w1, steps[1..]) == Run(side, w2, steps[1..][1..]);
    assert steps[1..][1..][0] == c;
  }
}
