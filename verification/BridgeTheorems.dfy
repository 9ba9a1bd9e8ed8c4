/** What holds of every run of the bridge. */
module BridgeTheorems {
  import opened Wrappers
  import opened Nssa
  import opened Planner
  import opened Store
  import opened Bridge

  // ----- Submission is at most once -----------------------------------------------------------

  /**
   In every run of requests, persistence failures, cancellations, crashes and restarts, the node is
   handed at most one transaction per request id.
   */
  lemma AtMostOneSend(side: Sidecar, steps: seq<Step>, i: nat, j: nat)
    requires i < j < |Run(side, INITIAL, steps).sends|
    ensures Run(side, INITIAL, steps).sends[i].id != Run(side, INITIAL, steps).sends[j].id
  {
    InitialInv(side);
    RunKeeps(side, INITIAL, steps);
  }

  /** A step sends only in the operation of a durably guarded submission, and only bytes the live planner holds. */
  ghost predicate SendsHeldBytes(w: World, sends': seq<Send>) {
    && w.sends <= sends' && |sends'| <= |w.sends| + 1
    && (|sends'| > |w.sends| ==>
          var sent := sends'[|w.sends|];
          && w.server.Up? && w.server.running.Some? && w.server.running.value.request.ForSubmission?
          && sent.id == w.server.running.value.request.Id() && Everywhere(w.disk, sent.id)
          && w.server.running.value.request.transaction == PreparedFrom(sent.transaction)
          && PreparedFrom(sent.transaction) in Held(w.server.planner))
  }

  lemma StepSendsHeldBytes(side: Sidecar, w: World, step: Step)
    requires WorldInv(side, w)
    ensures SendsHeldBytes(w, Apply(side, w, step).sends)
  {
    if step.Perform? && w.server.Up? && w.server.running.Some? {
      OperateKeeps(side, w.server.planner, w.server.running.value.request, step.env);
    }
  }

  lemma SendsAreHeldBytes(side: Sidecar, steps: seq<Step>, step: Step)
    ensures SendsHeldBytes(Run(side, INITIAL, steps), Apply(side, Run(side, INITIAL, steps), step).sends)
  {
    InitialInv(side);
    RunKeeps(side, INITIAL, steps);
    StepSendsHeldBytes(side, Run(side, INITIAL, steps), step);
  }

  // ----- Every reachable file restores --------------------------------------------------------

  /**
   Whatever file a crash leaves, the server starts from it; the planner then holds exactly the
   file's successful preparations, of which there is at most one per method.
   */
  lemma EveryReachableFileRestores(side: Sidecar, steps: seq<Step>, file: Entries)
    requires file in Run(side, INITIAL, steps).disk.possible
    ensures |file| <= MAX_STORE_ENTRIES
    ensures Start(side.config, file).Ok?
    ensures var restored := Start(side.config, file).value;
            && PlannerInv(side.config, restored) && Coupled(file, restored)
            && (restored.native.Some? <==> Successes(file, PrepareNativeEscrow) != {})
            && (restored.claim.Some? <==> Successes(file, PrepareRevealingClaim) != {})
            && (restored.refund.Some? <==> Successes(file, PrepareNativeRefund) != {})
    ensures forall rpc, a, b :: IsPrepare(rpc) && a in Successes(file, rpc) && b in Successes(file, rpc) ==> a == b
  {
    InitialInv(side);
    RunKeeps(side, INITIAL, steps);
    assert Restorable(side.config, file);
    var planner :| PlannerInv(side.config, planner) && Coupled(file, planner);
    StartRestores(side.config, file, planner);
    forall rpc, a, b | IsPrepare(rpc) && a in Successes(file, rpc) && b in Successes(file, rpc) ensures a == b {
      OneSuccess(file, planner, rpc, a, b);
    }
  }

  /** In every reachable live server, nonces are apart, memory couples to the planner, and clean memory is the file. */
  lemma EveryLiveServerIsCoupled(side: Sidecar, steps: seq<Step>)
    ensures var w := Run(side, INITIAL, steps);
            w.server.Up? ==>
              && NoncesApart(side.config, w.server.planner)
              && Coupled(w.server.entries, w.server.planner)
              && |w.server.entries| <= MAX_STORE_ENTRIES
              && (!w.server.dirty ==> w.disk.visible == w.server.entries)
  {
    InitialInv(side);
    RunKeeps(side, INITIAL, steps);
  }

  // ----- Answers that every file keeps --------------------------------------------------------

  predicate Records(entries: Entries, request: Request, outcome: Outcome) {
    && request.Id() in entries
    && entries[request.Id()].digest == Sha(request)
    && entries[request.Id()].outcome == outcome
  }

  /** Memory and every file a crash could leave record `outcome` for a request that is not running. */
  ghost predicate Stable(w: World, request: Request, outcome: Outcome) {
    && (forall m :: m in w.disk.possible ==> Records(m, request, outcome))
    && (w.server.Up? ==>
          && Records(w.server.entries, request, outcome)
          && (w.server.running.Some? ==> w.server.running.value.request.Id() != request.Id()))
  }

  /** Inserting under other ids and persisting keeps a stable record. */
  lemma RecordsSurvive(store: StoreState, other: Request, replay: Option<Request>, value: Outcome, fault: Fault,
                       request: Request, outcome: Outcome)
    requires Records(store.entries, request, outcome) && other.Id() != request.Id()
    requires forall m :: m in store.disk.possible ==> Records(m, request, outcome)
    ensures var after := InsertAndPersist(store, other, replay, value, fault);
            && Records(after.entries, request, outcome)
            && forall m :: m in after.disk.possible ==> Records(m, request, outcome)
  {
  }

  lemma StableBegin(side: Sidecar, w: World, other: Request, fault: Fault, request: Request, outcome: Outcome)
    requires Stable(w, request, outcome)
    ensures Stable(AfterBegin(side, w, other, fault), request, outcome)
  {
    if Idle(w) && Accepts(side, other) && other.Id() !in w.server.entries {
      RecordsSurvive(StoreOf(w), other, None, InFlight(other), fault, request, outcome);
    }
  }

  lemma StableComplete(w: World, fault: Fault, request: Request, outcome: Outcome)
    requires Stable(w, request, outcome)
    ensures Stable(AfterComplete(w, fault), request, outcome)
  {
    if AtStage(w, true) {
      var Running(other, stage) := w.server.running.value;
      RecordsSurvive(StoreOf(w), other, ReplayRequest(other), stage.outcome, fault, request, outcome);
    }
  }

  lemma StableStays(side: Sidecar, w: World, step: Step, request: Request, outcome: Outcome)
    requires w.disk.visible in w.disk.possible && Stable(w, request, outcome)
    ensures Stable(Apply(side, w, step), request, outcome)
  {
    match step
    case Begin(other, fault) => StableBegin(side, w, other, fault, request, outcome);
    case Complete(fault) => StableComplete(w, fault, request, outcome);
    case _ =>
  }

  lemma {:induction false} StableForever(side: Sidecar, w: World, steps: seq<Step>, request: Request, outcome: Outcome)
    requires WorldInv(side, w) && Stable(w, request, outcome)
    ensures Stable(Run(side, w, steps), request, outcome)
    decreases |steps|
  {
    if steps != [] {
      StepKeeps(side, w, steps[0]);
      StableStays(side, w, steps[0], request, outcome);
      StableForever(side, Apply(side, w, steps[0]), steps[1..], request, outcome);
    }
  }

  /** The disk is settled when a machine crash could only leave the visible file. */
  predicate Settled(disk: Disk) { disk.possible == {disk.visible} }

  /** Clean memory has nothing unsettled behind it, and every answer so far is stable. */
  ghost predicate AnswersInv(w: World) {
    && (w.server.Up? && !w.server.dirty ==> Settled(w.disk))
    && forall i :: 0 <= i < |w.replies| ==> Stable(w, w.replies[i].request, w.replies[i].outcome)
  }

  /** Clean memory is the visible file, and nothing else is possible behind it. */
  ghost predicate CleanSettled(w: World) {
    && w.disk.visible in w.disk.possible
    && (w.server.Up? && !w.server.dirty ==> Settled(w.disk) && w.disk.visible == w.server.entries)
  }

  /** What a step answers is recorded by memory and by every file a crash could leave. */
  lemma NewAnswerIsStable(side: Sidecar, w: World, step: Step)
    requires CleanSettled(w)
    ensures w.replies <= Apply(side, w, step).replies && |Apply(side, w, step).replies| <= |w.replies| + 1
    ensures var w' := Apply(side, w, step);
            |w'.replies| > |w.replies| ==> Stable(w', w'.replies[|w.replies|].request, w'.replies[|w.replies|].outcome)
  {
    match step
    case Begin(_, _) =>
    case Complete(_) =>
    case _ =>
  }

  lemma CleanIsSettled(side: Sidecar, w: World, step: Step)
    requires CleanSettled(w)
    requires step.Restart? && w.server.Down? ==> Settled(w.disk)
    ensures var w' := Apply(side, w, step); w'.server.Up? && !w'.server.dirty ==> Settled(w'.disk)
  {
    match step
    case Begin(_, _) =>
    case Complete(_) =>
    case _ =>
  }

  lemma AnswersStay(side: Sidecar, w: World, step: Step)
    requires WorldInv(side, w) && AnswersInv(w)
    requires step.Restart? && w.server.Down? ==> Settled(w.disk)
    ensures AnswersInv(Apply(side, w, step))
  {
    CleanIsSettled(side, w, step);
    NewAnswerIsStable(side, w, step);
    var w' := Apply(side, w, step);
    forall i | 0 <= i < |w'.replies| ensures Stable(w', w'.replies[i].request, w'.replies[i].outcome) {
      if i < |w.replies| {
        assert w'.replies[i] == w.replies[i];
        StableStays(side, w, step, w.replies[i].request, w.replies[i].outcome);
      }
    }
  }

  // ----- Answers that only the visible file is known to keep --------------------------------------

  /** Memory and the visible file record `outcome` for a request that is not running. */
  ghost predicate Visible(w: World, request: Request, outcome: Outcome) {
    && Records(w.disk.visible, request, outcome)
    && (w.server.Up? ==>
          && Records(w.server.entries, request, outcome)
          && (w.server.running.Some? ==> w.server.running.value.request.Id() != request.Id()))
  }

  lemma VisibleBegin(side: Sidecar, w: World, other: Request, fault: Fault, request: Request, outcome: Outcome)
    requires Visible(w, request, outcome)
    ensures Visible(AfterBegin(side, w, other, fault), request, outcome)
  {
  }

  lemma VisibleComplete(w: World, fault: Fault, request: Request, outcome: Outcome)
    requires Visible(w, request, outcome)
    ensures Visible(AfterComplete(w, fault), request, outcome)
  {
  }

  /** Only a machine crash takes the visible file away. */
  lemma VisibleStays(side: Sidecar, w: World, step: Step, request: Request, outcome: Outcome)
    requires Visible(w, request, outcome) && !step.CrashMachine?
    ensures Visible(Apply(side, w, step), request, outcome)
  {
    match step
    case Begin(other, fault) => VisibleBegin(side, w, other, fault, request, outcome);
    case Complete(fault) => VisibleComplete(w, fault, request, outcome);
    case _ =>
  }

  /** What a step answers is recorded by memory and by the visible file. */
  lemma NewAnswerIsVisible(side: Sidecar, w: World, step: Step)
    requires w.server.Up? && !w.server.dirty ==> w.disk.visible == w.server.entries
    ensures w.replies <= Apply(side, w, step).replies && |Apply(side, w, step).replies| <= |w.replies| + 1
    ensures var w' := Apply(side, w, step);
            |w'.replies| > |w.replies| ==> Visible(w', w'.replies[|w.replies|].request, w'.replies[|w.replies|].outcome)
  {
    match step
    case Begin(_, _) =>
    case Complete(_) =>
    case _ =>
  }

  ghost predicate AnswersVisible(w: World) {
    forall i :: 0 <= i < |w.replies| ==> Visible(w, w.replies[i].request, w.replies[i].outcome)
  }

  // ----- Answers agree ----------------------------------------------------------------------------

  /** A start has read an unsettled disk, and the disk has not been settled since. */
  ghost predicate Exposed(side: Sidecar, w: World, step: Step, exposed: bool) {
    !Settled(Apply(side, w, step).disk) && (exposed || (step.Restart? && w.server.Down?))
  }

  /** No machine crash of the run happens while it is exposed. */
  ghost predicate CrashesUnexposed(side: Sidecar, w: World, steps: seq<Step>, exposed: bool)
    decreases |steps|
  {
    steps == [] || (
      && (steps[0].CrashMachine? ==> !exposed)
      && CrashesUnexposed(side, Apply(side, w, steps[0]), steps[1..], Exposed(side, w, steps[0], exposed)))
  }

  ghost predicate ExposedAfter(side: Sidecar, w: World, steps: seq<Step>, exposed: bool)
    decreases |steps|
  {
    if steps == [] then exposed
    else ExposedAfter(side, Apply(side, w, steps[0]), steps[1..], Exposed(side, w, steps[0], exposed))
  }

  /** Every answer is on the visible file, and unless a start is exposed on every file a crash could leave. */
  ghost predicate ExposureInv(w: World, exposed: bool) { AnswersVisible(w) && (!exposed ==> AnswersInv(w)) }

  lemma StableIsVisible(w: World, request: Request, outcome: Outcome)
    requires w.disk.visible in w.disk.possible && Stable(w, request, outcome)
    ensures Visible(w, request, outcome)
  {
  }

  lemma AnswersStayVisible(side: Sidecar, w: World, step: Step, exposed: bool)
    requires WorldInv(side, w) && ExposureInv(w, exposed) && (step.CrashMachine? ==> !exposed)
    ensures AnswersVisible(Apply(side, w, step))
  {
    var w' := Apply(side, w, step);
    NewAnswerIsVisible(side, w, step);
    if step.CrashMachine? {
      AnswersStay(side, w, step);
      StepKeeps(side, w, step);
    }
    forall i | 0 <= i < |w'.replies| ensures Visible(w', w'.replies[i].request, w'.replies[i].outcome) {
      if step.CrashMachine? {
        StableIsVisible(w', w'.replies[i].request, w'.replies[i].outcome);
      } else if i < |w.replies| {
        assert w'.replies[i] == w.replies[i];
        VisibleStays(side, w, step, w.replies[i].request, w.replies[i].outcome);
      }
    }
  }

  lemma ExposureStays(side: Sidecar, w: World, step: Step, exposed: bool)
    requires WorldInv(side, w) && ExposureInv(w, exposed) && (step.CrashMachine? ==> !exposed)
    ensures ExposureInv(Apply(side, w, step), Exposed(side, w, step, exposed))
  {
    AnswersStayVisible(side, w, step, exposed);
    if !Exposed(side, w, step, exposed) && !Settled(Apply(side, w, step).disk) { AnswersStay(side, w, step); }
  }

  lemma {:induction false} ExposureStaysInRun(side: Sidecar, w: World, steps: seq<Step>, exposed: bool)
    requires WorldInv(side, w) && ExposureInv(w, exposed) && CrashesUnexposed(side, w, steps, exposed)
    ensures WorldInv(side, Run(side, w, steps))
    ensures ExposureInv(Run(side, w, steps), ExposedAfter(side, w, steps, exposed))
    decreases |steps|
  {
    if steps != [] {
      StepKeeps(side, w, steps[0]);
      ExposureStays(side, w, steps[0], exposed);
      ExposureStaysInRun(side, Apply(side, w, steps[0]), steps[1..], Exposed(side, w, steps[0], exposed));
    }
  }

  /** Two successful answers of one prepare method. */
  predicate SamePreparation(a: Answer, b: Answer) {
    && a.outcome.Success? && b.outcome.Success?
    && a.request.Rpc() == b.request.Rpc() && IsPrepare(a.request.Rpc())
  }

  /**
   Two stored outcomes ever answered under one request id answer the same request and are equal, across
   restarts; and one prepare method has one successful answer, whatever the ids. All that is asked of the
   run is that the machine does not crash while a start over an unsynced file is exposed.
   */
  lemma AnswersAgree(side: Sidecar, steps: seq<Step>, a: Answer, b: Answer)
    requires CrashesUnexposed(side, INITIAL, steps, false)
    requires a in Run(side, INITIAL, steps).replies && b in Run(side, INITIAL, steps).replies
    ensures a.request.Id() == b.request.Id() ==> a == b
    ensures SamePreparation(a, b) ==> a == b
  {
    InitialInv(side);
    ExposureStaysInRun(side, INITIAL, steps, false);
    var w := Run(side, INITIAL, steps);
    var file := w.disk.visible;
    assert Visible(w, a.request, a.outcome) && Visible(w, b.request, b.outcome);
    EveryReachableFileRestores(side, steps, file);
    assert EntryOk(a.request.Id(), file[a.request.Id()]) && EntryOk(b.request.Id(), file[b.request.Id()]) by {
      assert Restorable(side.config, file);
    }
    if SamePreparation(a, b) {
      assert a.request.Id() in Successes(file, a.request.Rpc()) && b.request.Id() in Successes(file, a.request.Rpc());
    }
  }

  predicate NoMachineCrash(steps: seq<Step>) { forall i :: 0 <= i < |steps| ==> !steps[i].CrashMachine? }

  lemma {:induction false} WithoutCrashUnexposed(side: Sidecar, w: World, steps: seq<Step>, exposed: bool)
    requires NoMachineCrash(steps)
    ensures CrashesUnexposed(side, w, steps, exposed)
    decreases |steps|
  {
    if steps != [] {
      WithoutCrashUnexposed(side, Apply(side, w, steps[0]), steps[1..], Exposed(side, w, steps[0], exposed));
    }
  }

  /**
   Without machine crashes answers agree in every run: persistence failures, cancellations, kills and
   restarts included.
   */
  lemma AnswersAgreeWithoutCrash(side: Sidecar, steps: seq<Step>, a: Answer, b: Answer)
    requires NoMachineCrash(steps)
    requires a in Run(side, INITIAL, steps).replies && b in Run(side, INITIAL, steps).replies
    ensures a.request.Id() == b.request.Id() ==> a == b
    ensures SamePreparation(a, b) ==> a == b
  {
    WithoutCrashUnexposed(side, INITIAL, steps, false);
    AnswersAgree(side, steps, a, b);
  }

  /** Every start in the run reads a settled disk. */
  ghost predicate StartsSettled(side: Sidecar, w: World, steps: seq<Step>)
    decreases |steps|
  {
    steps == [] || (
      && (steps[0].Restart? && w.server.Down? ==> Settled(w.disk))
      && StartsSettled(side, Apply(side, w, steps[0]), steps[1..]))
  }

  /** Settled starts are never exposed, so the machine may then crash at any time. */
  lemma {:induction false} SettledStartsUnexposed(side: Sidecar, w: World, steps: seq<Step>)
    requires StartsSettled(side, w, steps)
    ensures CrashesUnexposed(side, w, steps, false) && !ExposedAfter(side, w, steps, false)
    decreases |steps|
  {
    if steps != [] {
      assert !Exposed(side, w, steps[0], false);
      SettledStartsUnexposed(side, Apply(side, w, steps[0]), steps[1..]);
    }
  }

  // ----- An answered preparation is the only one ----------------------------------------------------

  /** The instructions of the transactions one prepare method makes. */
  predicate InSlot(rpc: Rpc, instruction: Instruction) {
    match rpc
    case PrepareNativeEscrow => instruction.InitializeNative? || instruction.FundNative?
    case PrepareRevealingClaim => instruction.ClaimNative?
    case PrepareNativeRefund => instruction.RefundNative?
    case _ => false
  }

  /** The transactions of a prepared value. */
  function Prepareds(value: Value): set<Prepared> {
    match value
    case EscrowValue(result) => {result.initialization, result.funding}
    case ClaimValue(result) => {result.claim}
    case RefundValue(result) => {result.refund}
    case _ => {}
  }

  /** The live planner's slot is this preparation, and a step sends no other transaction of the slot. */
  ghost predicate OnlyInSlot(w: World, sends': seq<Send>, request: Request, value: Value) {
    && (w.server.Up? ==> Holds(w.server.planner, request, value))
    && forall i :: |w.sends| <= i < |sends'| && InSlot(request.Rpc(), sends'[i].transaction.message.instruction)
         ==> PreparedFrom(sends'[i].transaction) in Prepareds(value)
  }

  /** What a planner holds with the instructions of a slot is the slot's own. */
  lemma HeldByInstruction(config: Config, planner: PlannerState, request: Request, value: Value,
                          transaction: PublicTransaction)
    requires PlannerInv(config, planner) && IsPrepare(request.Rpc()) && Holds(planner, request, value)
    requires PreparedFrom(transaction) in Held(planner) && InSlot(request.Rpc(), transaction.message.instruction)
    ensures PreparedFrom(transaction) in Prepareds(value)
  {
  }

  lemma RecordedIsTheOnlyOne(side: Sidecar, w: World, request: Request, value: Value, step: Step)
    requires WorldInv(side, w) && IsPrepare(request.Rpc()) && Visible(w, request, Success(value))
    ensures OnlyInSlot(w, Apply(side, w, step).sends, request, value)
  {
    StepSendsHeldBytes(side, w, step);
    if w.server.Up? {
      RecordedIsHeld(w.server.entries, w.server.planner, request, value);
      OnlyHeldIsSent(side, w, Apply(side, w, step).sends, request, value);
    }
  }

  lemma RecordedIsHeld(entries: Entries, planner: PlannerState, request: Request, value: Value)
    requires Coupled(entries, planner) && Records(entries, request, Success(value))
    ensures Holds(planner, request, value)
  {
  }

  lemma OnlyHeldIsSent(side: Sidecar, w: World, sends': seq<Send>, request: Request, value: Value)
    requires SendsHeldBytes(w, sends') && w.server.Up? && PlannerInv(side.config, w.server.planner)
    requires IsPrepare(request.Rpc()) && Holds(w.server.planner, request, value)
    ensures OnlyInSlot(w, sends', request, value)
  {
    forall i | |w.sends| <= i < |sends'| && InSlot(request.Rpc(), sends'[i].transaction.message.instruction)
      ensures PreparedFrom(sends'[i].transaction) in Prepareds(value)
    {
      HeldByInstruction(side.config, w.server.planner, request, value, sends'[i].transaction);
    }
  }

  /**
   Once a preparation of the pair, the claim or the refund has been answered, the planner live at any point
   of the run holds it, and what the run sends next of its slot is byte for byte the answered one.
   */
  lemma AnsweredIsTheOnlyOne(side: Sidecar, steps: seq<Step>, request: Request, value: Value, step: Step)
    requires CrashesUnexposed(side, INITIAL, steps, false) && IsPrepare(request.Rpc())
    requires Answer(request, Success(value)) in Run(side, INITIAL, steps).replies
    ensures var w := Run(side, INITIAL, steps); OnlyInSlot(w, Apply(side, w, step).sends, request, value)
  {
    InitialInv(side);
    ExposureStaysInRun(side, INITIAL, steps, false);
    RecordedIsTheOnlyOne(side, Run(side, INITIAL, steps), request, value, step);
  }

  /**
   If no start is exposed when it is answered, the same holds at every point of every further run, whatever
   starts and crashes that run has.
   */
  lemma AnsweredIsTheOnlyOneForever(side: Sidecar, steps: seq<Step>, later: seq<Step>, request: Request, value: Value,
                                    step: Step)
    requires CrashesUnexposed(side, INITIAL, steps, false) && !ExposedAfter(side, INITIAL, steps, false)
             && IsPrepare(request.Rpc())
    requires Answer(request, Success(value)) in Run(side, INITIAL, steps).replies
    ensures var w := Run(side, Run(side, INITIAL, steps), later);
            OnlyInSlot(w, Apply(side, w, step).sends, request, value)
  {
    InitialInv(side);
    ExposureStaysInRun(side, INITIAL, steps, false);
    var before := Run(side, INITIAL, steps);
    assert Stable(before, request, Success(value)) by {
      var i :| 0 <= i < |before.replies| && before.replies[i] == Answer(request, Success(value));
    }
    RunKeeps(side, before, later);
    StableForever(side, before, later, request, Success(value));
    StableIsVisible(Run(side, before, later), request, Success(value));
    RecordedIsTheOnlyOne(side, Run(side, before, later), request, value, step);
  }

  // ----- Exactly when an answer can be taken back ------------------------------------------------

  /** Answering a clean memory's recorded outcome for `request`. */
  ghost predicate AnswersClean(side: Sidecar, w: World, request: Request, outcome: Outcome) {
    Idle(w) && Accepts(side, request) && !w.server.dirty && Records(w.server.entries, request, outcome)
  }

  /** The disk, whichever file a crash leaves, records that outcome too. */
  ghost predicate FilesAgree(disk: Disk, request: Request, outcome: Outcome) {
    forall m :: m in disk.possible ==> Records(m, request, outcome)
  }

  /** Another request under the same id: an observation that is not `request`. */
  function Other(side: Sidecar, request: Request): Request {
    ForObservation(ObserveEscrow, request.Ctx(), side.config.runtime,
                   if request.ForObservation? then request.target + 1 else 0)
  }

  const QUIET := Env(None, (0, 0), NoAnswer, Ok(0))

  /** What answers under the id again, from a memory that has these entries. */
  function Again(side: Sidecar, entries: Entries, request: Request): seq<Step> {
    if request.Id() in entries then [Begin(request, Completes)]
    else [Begin(Other(side, request), Completes), Perform(QUIET), Complete(Completes)]
  }

  /** A run that answers a request, loses the machine to `file`, starts again and answers under its id once more. */
  function Revocation(side: Sidecar, request: Request, file: Entries): seq<Step> {
    [Begin(request, Completes), CrashMachine(file), Restart] + Again(side, file, request)
  }

  /** A run from `w` adds one answer under the id of `request`, which is not that outcome of that request. */
  ghost predicate AnswersOtherwise(w: World, after: World, request: Request, outcome: Outcome) {
    && |after.replies| == |w.replies| + 1 && w.replies <= after.replies
    && after.replies[|w.replies|].request.Id() == request.Id() && after.replies[|w.replies|] != Answer(request, outcome)
  }

  /** A request the memory records with another outcome is answered with it. */
  lemma AnswerRecorded(side: Sidecar, w: World, request: Request, outcome: Outcome)
    requires Idle(w) && !w.server.dirty && Accepts(side, request)
    requires request.Id() in w.server.entries && EntryOk(request.Id(), w.server.entries[request.Id()])
    requires w.server.entries[request.Id()].digest == Sha(request) && w.server.entries[request.Id()].outcome != outcome
    ensures AnswersOtherwise(w, AfterBegin(side, w, request, Completes), request, outcome)
  {
  }

  /** Under an id without a record, and with room for one, another request is begun, performed and answered. */
  lemma BeginOther(side: Sidecar, w: World, other: Request)
    requires Idle(w) && Accepts(side, other) && other.ForObservation? && |w.server.entries| < MAX_STORE_ENTRIES
             && other.Id() !in w.server.entries
    ensures AfterBegin(side, w, other, Completes) == w.(server := w.server.(running := Some(Running(other, Guarded))))
  {
  }

  lemma FinishOther(side: Sidecar, begun: World, other: Request)
    requires begun.server.Up? && begun.server.running == Some(Running(other, Guarded)) && other.ForObservation?
    ensures AfterComplete(AfterPerform(side, begun, QUIET), Completes).replies
            == begun.replies + [Answer(other, Success(FactsValue(0)))]
  {
  }

  /** Answering under an id again, from a clean memory that does not record `outcome` for it. */
  lemma AnswerAgain(side: Sidecar, w: World, request: Request, outcome: Outcome)
    requires WorldInv(side, w) && Idle(w) && !w.server.dirty && Accepts(side, request)
    requires |w.server.entries| < MAX_STORE_ENTRIES || request.Id() in w.server.entries
    requires request.Id() in w.server.entries ==>
               w.server.entries[request.Id()].digest == Sha(request)
                   && w.server.entries[request.Id()].outcome != outcome
    ensures AnswersOtherwise(w, Run(side, w, Again(side, w.server.entries, request)), request, outcome)
  {
    if request.Id() in w.server.entries {
      AnswerRecorded(side, w, request, outcome);
      RunOne(side, w, Begin(request, Completes));
    } else {
      var other := Other(side, request);
      BeginOther(side, w, other);
      FinishOther(side, AfterBegin(side, w, other, Completes), other);
      RunThree(side, w, Begin(other, Completes), Perform(QUIET), Complete(Completes), []);
      assert [Begin(other, Completes), Perform(QUIET), Complete(Completes)] + []
             == Again(side, w.server.entries, request);
    }
  }

  lemma RevocationAnswersOtherwise(side: Sidecar, w: World, request: Request, outcome: Outcome, file: Entries)
    requires WorldInv(side, w) && AnswersClean(side, w, request, outcome)
    requires file in w.disk.possible && !Records(file, request, outcome)
    ensures var replies := Run(side, w, Revocation(side, request, file)).replies;
            && |replies| == |w.replies| + 2
            && replies[|w.replies|] == Answer(request, outcome)
            && replies[|w.replies| + 1].request.Id() == request.Id()
                && replies[|w.replies| + 1] != Answer(request, outcome)
  {
    RunThree(side, w, Begin(request, Completes), CrashMachine(file), Restart, Again(side, file, request));
    AnswerThenCrash(side, w, request, outcome, file);
    FileHasRoom(side, w, request.Id(), file);
    AnswerAfterCrash(side, Apply(side, Apply(side, w, Begin(request, Completes)), CrashMachine(file)), request, outcome,
                     file);
  }

  lemma AnswerAfterCrash(side: Sidecar, crashed: World, request: Request, outcome: Outcome, file: Entries)
    requires WorldInv(side, crashed) && crashed.server.Down? && crashed.disk.visible == file
    requires Accepts(side, request) && !Records(file, request, outcome)
    requires if request.Id() in file then file[request.Id()].digest == Sha(request) else |file| < MAX_STORE_ENTRIES
    ensures AnswersOtherwise(crashed, Run(side, Apply(side, crashed, Restart), Again(side, file, request)), request,
                             outcome)
  {
    RestartKeeps(side, crashed);
    AnswerAgain(side, AfterRestart(side, crashed), request, outcome);
  }

  lemma AnswerThenCrash(side: Sidecar, w: World, request: Request, outcome: Outcome, file: Entries)
    requires WorldInv(side, w) && AnswersClean(side, w, request, outcome) && file in w.disk.possible
    ensures var crashed := Apply(side, Apply(side, w, Begin(request, Completes)), CrashMachine(file));
            WorldInv(side, crashed) && crashed == World(Disk(file, {file}), Down, w.sends,
                                                        w.replies + [Answer(request, outcome)])
  {
    CleanAnswer(side, w, request, outcome);
    StepKeeps(side, w, Begin(request, Completes));
    StepKeeps(side, Apply(side, w, Begin(request, Completes)), CrashMachine(file));
  }

  lemma CleanAnswer(side: Sidecar, w: World, request: Request, outcome: Outcome)
    requires WorldInv(side, w) && AnswersClean(side, w, request, outcome)
    ensures Apply(side, w, Begin(request, Completes)) == w.(replies := w.replies + [Answer(request, outcome)])
  {
    assert EntryOk(request.Id(), w.server.entries[request.Id()]);
  }

  /** A file that lacks an id the memory has is not full. */
  lemma FileHasRoom(side: Sidecar, w: World, id: RequestId, file: Entries)
    requires WorldInv(side, w) && w.server.Up? && id in w.server.entries && file in w.disk.possible
    ensures id in file || |file| < MAX_STORE_ENTRIES
    ensures id in file ==> file[id].digest == w.server.entries[id].digest
  {
    assert SameRequests(file, w.disk.visible) && SameRequests(w.disk.visible, w.server.entries);
    if id !in file {
      assert file.Keys <= w.server.entries.Keys - {id};
      SubsetSize(file.Keys, w.server.entries.Keys - {id});
    }
  }

  lemma {:induction false} SubsetSize<T>(small: set<T>, large: set<T>)
    requires small <= large
    ensures |small| <= |large|
    decreases |small|
  {
    if small != {} {
      var x :| x in small;
      SubsetSize(small - {x}, large - {x});
    }
  }

  /** While a record is stable, every further answer under its id is that record. */
  lemma {:induction false} LaterAnswersAgree(side: Sidecar, w: World, steps: seq<Step>, request: Request,
                                             outcome: Outcome)
    requires WorldInv(side, w) && Stable(w, request, outcome)
    ensures w.replies <= Run(side, w, steps).replies
    ensures forall b :: b in Run(side, w, steps).replies[|w.replies|..] && b.request.Id() == request.Id() ==>
            b == Answer(request, outcome)
    decreases |steps|
  {
    if steps != [] {
      var next := Apply(side, w, steps[0]);
      StepKeeps(side, w, steps[0]);
      StableStays(side, w, steps[0], request, outcome);
      StepAnswersAgree(side, w, steps[0], request, outcome);
      LaterAnswersAgree(side, next, steps[1..], request, outcome);
      var all := Run(side, w, steps).replies;
      assert all[|w.replies|..] == next.replies[|w.replies|..] + all[|next.replies|..];
    }
  }

  lemma StepAnswersAgree(side: Sidecar, w: World, step: Step, request: Request, outcome: Outcome)
    requires Stable(w, request, outcome)
    ensures w.replies <= Apply(side, w, step).replies
    ensures forall b :: b in Apply(side, w, step).replies[|w.replies|..] && b.request.Id() == request.Id() ==>
            b == Answer(request, outcome)
  {
  }

  /** Every answer under the id of `request` from now on, in a run, is that outcome of that request. */
  ghost predicate FinalThrough(side: Sidecar, w: World, steps: seq<Step>, request: Request, outcome: Outcome) {
    var replies := Run(side, w, steps).replies;
    forall i :: |w.replies| <= i < |replies| && replies[i].request.Id() == request.Id() ==>
        replies[i] == Answer(request, outcome)
  }

  /**
   A stored outcome, answered from clean memory, is the only answer under its id for the rest of every
   run exactly when every file a crash could leave records it already.
   */
  lemma AnswerIsFinalIffFilesAgree(side: Sidecar, w: World, request: Request, outcome: Outcome)
    requires WorldInv(side, w) && AnswersClean(side, w, request, outcome)
    ensures FilesAgree(w.disk, request, outcome) <==>
            forall steps: seq<Step> :: FinalThrough(side, w, steps, request, outcome)
  {
    if FilesAgree(w.disk, request, outcome) {
      forall steps: seq<Step> ensures FinalThrough(side, w, steps, request, outcome) {
        LaterAnswersAgree(side, w, steps, request, outcome);
        var replies := Run(side, w, steps).replies;
        forall i | |w.replies| <= i < |replies| && replies[i].request.Id() == request.Id()
            ensures replies[i] == Answer(request, outcome) {
          assert replies[|w.replies|..][i - |w.replies|] == replies[i];
        }
      }
    } else {
      var file :| file in w.disk.possible && !Records(file, request, outcome);
      RevocationAnswersOtherwise(side, w, request, outcome, file);
      assert !FinalThrough(side, w, Revocation(side, request, file), request, outcome);
    }
  }

  /** A first submission whose guard is renamed but not synced, seen from the disk. */
  lemma GuardWithoutSync(side: Sidecar, w: World, request: Request)
    requires Idle(w) && Accepts(side, request) && request.ForSubmission?
    requires w.disk == EMPTY_DISK && w.server.entries == map[]
    ensures var file: Entries := map[request.Id() := Entry(SubmitTransaction, Sha(request), None, InFlight(request))];
            Apply(side, w, Begin(request, FailsAfterRename)).disk == Disk(file, {map[], file})
  {
    assert w.server.entries[request.Id() := Entry(SubmitTransaction, Sha(request), None, InFlight(request))]
        == map[request.Id() := Entry(SubmitTransaction, Sha(request), None, InFlight(request))];
    assert w.disk.possible == {map[]};
  }

  /** Starting over such a disk serves the unsynced guard from clean memory. */
  lemma StartOverUnsynced(side: Sidecar, w: World, request: Request)
    requires WorldInv(side, w) && w.server.Down? && Accepts(side, request) && request.ForSubmission?
    requires var file: Entries := map[request.Id() := Entry(SubmitTransaction, Sha(request), None, InFlight(request))];
             w.disk == Disk(file, {map[], file})
    ensures AnswersClean(side, Apply(side, w, Restart), request, InFlight(request))
    ensures !FilesAgree(Apply(side, w, Restart).disk, request, InFlight(request))
  {
    RestartKeeps(side, w);
    var empty: Entries := map[];
    assert empty in w.disk.possible && !Records(empty, request, InFlight(request));
  }

  lemma UnsyncedGuardThenKill(side: Sidecar, w: World, request: Request)
    requires WorldInv(side, w) && w.server.Down? && w.disk == EMPTY_DISK && Accepts(side, request)
             && request.ForSubmission?
    ensures var killed := Apply(side, Apply(side, Apply(side, w, Restart), Begin(request, FailsAfterRename)),
                                KillProcess);
            && AnswersClean(side, Apply(side, killed, Restart), request, InFlight(request))
            && !FilesAgree(Apply(side, killed, Restart).disk, request, InFlight(request))
  {
    RestartKeeps(side, w);
    var up := Apply(side, w, Restart);
    GuardWithoutSync(side, up, request);
    StepKeeps(side, w, Restart);
    KilledAfter(side, up, Begin(request, FailsAfterRename));
    StartOverUnsynced(side, Apply(side, Apply(side, up, Begin(request, FailsAfterRename)), KillProcess), request);
  }

  lemma KilledAfter(side: Sidecar, w: World, step: Step)
    requires WorldInv(side, w)
    ensures var killed := Apply(side, Apply(side, w, step), KillProcess);
            WorldInv(side, killed) && killed.server.Down? && killed.disk == Apply(side, w, step).disk
  {
    StepKeeps(side, w, step);
    StepKeeps(side, Apply(side, w, step), KillProcess);
  }

  /**
   The failing family is reachable: a submission whose guard was renamed but whose directory was not
   synced, then a killed process. The new process answers from clean memory a file that a machine
   crash takes back.
   */
  lemma UnsettledStartIsReachable(side: Sidecar, w: World, request: Request)
    requires w == INITIAL && Accepts(side, request) && request.ForSubmission?
    ensures exists steps :: var reached := Run(side, w, steps);
            && AnswersClean(side, reached, request, InFlight(request))
            && !FilesAgree(reached.disk, request, InFlight(request))
  {
    InitialInv(side);
    UnsyncedGuardThenKill(side, w, request);
    var killed := Apply(side, Apply(side, Apply(side, w, Restart), Begin(request, FailsAfterRename)), KillProcess);
    RunThree(side, w, Restart, Begin(request, FailsAfterRename), KillProcess, [Restart]);
    RunOne(side, killed, Restart);
  }
}
