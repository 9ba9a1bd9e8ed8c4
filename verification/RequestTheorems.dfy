/**
 What the bridge answers: to each kind of request, to a first request whose steps all succeed, to the same
 request again, and to a submission whose process was killed on the way.
 */
module RequestTheorems {
  import opened Wrappers
  import opened Nssa
  import opened Planner
  import opened PlannerTheorems
  import opened Store
  import opened Bridge

  function Refusal(request: Request, failure: Failure): Outcome { Failed(Reply(request.Ctx(), failure)) }

  // ----- Which requests are taken -----------------------------------------------------------------------

  /** A request of this run, to this role and, where it names one, to this runtime. */
  predicate ForThis(side: Sidecar, request: Request) {
    && request.Ctx().runId == side.run && request.Ctx().role == side.config.runtime.role
    && (request.ForEscrow? ==> request.escrow.runtime == side.config.runtime)
    && (request.ForClaim? ==> request.claim.runtime == side.config.runtime)
    && (request.ForRefund? ==> request.refund.runtime == side.config.runtime)
    && (request.ForObservation? || request.ForSubmission? ==> request.runtime == side.config.runtime)
  }

  lemma AcceptsMeans(side: Sidecar, request: Request)
    ensures Accepts(side, request) <==> ForThis(side, request)
  {
  }

  // ----- What each request answers ------------------------------------------------------------------------

  /** What a submission of held bytes answers, by what the node answers. */
  ghost predicate SubmissionAnswer(request: Request, node: NodeAnswer, outcome: Outcome)
    requires request.ForSubmission?
  {
    && (node == SameHash ==> outcome == Success(SubmissionValue(request.context, request.transaction.id)))
    && (node == InvalidParameters ==> outcome == Refusal(request, InvalidTransaction))
    && (node == OtherHash || node == NoAnswer ==> outcome == Refusal(request, UnknownSubmission))
  }

  /**
   A submission hands the node exactly the bytes it names, if they are held, and answers what the node made of
   them; it hands over nothing else, and leaves the planner as it is.
   */
  lemma SubmissionMeans(side: Sidecar, planner: PlannerState, request: Request, env: Env)
    requires Configured(side.config) && PlannerInv(side.config, planner)
    requires request.ForSubmission? && ForThis(side, request)
    ensures var o := Operate(side, planner, request, env);
            && o.planner == planner
            && (o.handed.Some? <==> request.transaction in Held(planner))
            && (o.handed.Some? ==> request.transaction == Prepared(HashOf(o.handed.value), Encoded(o.handed.value)))
            && (o.handed.Some? ==> SubmissionAnswer(request, env.node, o.outcome))
            && (o.handed.None? ==> o.outcome == Refusal(request, InvalidTransaction))
  {
    if planner.native.Some? { HeldPairSays(side.config, planner); }
    if planner.claim.Some? { HeldClaimSays(side.config, planner); }
    if planner.refund.Some? { HeldRefundSays(side.config, planner); }
  }

  /** A preparation answers the planner's result, or that the node gave no nonce, or that the request is invalid. */
  lemma PreparationMeans(side: Sidecar, planner: PlannerState, request: Request, env: Env)
    requires Configured(side.config) && PlannerInv(side.config, planner) && ForThis(side, request)
    ensures var o := Operate(side, planner, request, env);
            && (request.ForEscrow? ==>
                  var p := PrepareEscrow(side.config, planner, request.escrow, env.nonce, env.entropy);
                  && o == Operation(p.state, o.outcome, None)
                  && o.outcome == if p.result.Ok? then Success(EscrowValue(p.result.value))
                                  else if MayPreparePair(side.config, request.escrow) && planner.native.None?
                                          && env.nonce.None? then Refusal(request, Unavailable)
                                  else Refusal(request, InvalidRequest))
            && (request.ForClaim? ==>
                  var p := PrepareClaim(side.config, planner, request.claim, env.nonce, env.entropy.0);
                  && o == Operation(p.state, o.outcome, None)
                  && o.outcome == if p.result.Ok? then Success(ClaimValue(p.result.value))
                                  else if request.claim.terms.claimant != side.config.role
                                  then Refusal(request, WrongRole)
                                  else if MayPrepareClaim(side.config, request.claim) && planner.claim.None?
                                          && env.nonce.None? then Refusal(request, Unavailable)
                                  else Refusal(request, InvalidRequest))
            && (request.ForRefund? ==>
                  var p := PrepareRefund(side.config, planner, request.refund);
                  && o == Operation(p.state, o.outcome, None)
                  && o.outcome == if p.result.Ok? then Success(RefundValue(p.result.value))
                                  else Refusal(request, InvalidRequest))
  {
    if planner.native.Some? { HeldPairSays(side.config, planner); }
    if planner.claim.Some? { HeldClaimSays(side.config, planner); }
  }

  /** A description always answers; an observation answers what was seen, or the kind of its failure. */
  lemma ObservationMeans(side: Sidecar, planner: PlannerState, request: Request, env: Env)
    requires request.Describe? || request.ForObservation?
    ensures var o := Operate(side, planner, request, env);
            && o.planner == planner && o.handed == None
            && (request.Describe? ==> o.outcome == Success(FactsValue(0)))
            && (request.ForObservation? ==>
                  && (env.facts.Ok? ==> o.outcome == Success(FactsValue(env.facts.value)))
                  && (env.facts == Err(MovingTip) ==> o.outcome == Refusal(request, Moving))
                  && (env.facts == Err(AmbiguousDiscovery) ==> o.outcome == Refusal(request, Ambiguous))
                  && (env.facts in {Err(NodeObservationUnavailable), Err(InvalidNodeResponse)} ==>
                        o.outcome == Refusal(request, Unavailable))
                  && (env.facts in {Err(WrongSidecarRole), Err(WrongClaimantRole)} ==>
                        o.outcome == Refusal(request, WrongRole))
                  && (env.facts == Err(TransactionNotPrepared) ==> o.outcome == Refusal(request, InvalidTransaction))
                  && (env.facts in {Err(WrongDepositorRole), Err(WrongRuntimeIdentity), Err(ProtocolEncoding)} ==>
                        o.outcome == Refusal(request, InvalidRequest)))
  {
  }

  // ----- A first request ------------------------------------------------------------------------------------

  /** Nothing is running, the id is new and the map has room. */
  predicate Awaits(w: World, request: Request) {
    Idle(w) && request.Id() !in w.server.entries && |w.server.entries| < MAX_STORE_ENTRIES
  }

  /** A record under the request's id, in memory and on every file that a crash could leave. */
  predicate RecordedEverywhere(w: World, request: Request, outcome: Outcome) {
    && w.server.Up? && !w.server.dirty && w.disk == Disk(w.server.entries, {w.server.entries})
    && request.Id() in w.server.entries
    && w.server.entries[request.Id()] == Entry(request.Rpc(), Sha(request), ReplayRequest(request), outcome)
  }

  function Uninterrupted(request: Request, env: Env): seq<Step> {
    [Begin(request, Completes), Perform(env), Complete(Completes)]
  }

  /**
   A first request whose persistences complete is operated once, its outcome is recorded durably and answered,
   and exactly what the operation hands over is sent.
   */
  lemma FirstRequestIsAnswered(side: Sidecar, w: World, request: Request, env: Env)
    requires Awaits(w, request) && ForThis(side, request)
    ensures var o := Operate(side, w.server.planner, request, env);
            var w' := Run(side, w, Uninterrupted(request, env));
            && w'.replies == w.replies + [Answer(request, o.outcome)]
            && w'.sends == w.sends + (if o.handed.Some? then [Send(request.Id(), o.handed.value)] else [])
            && Idle(w') && w'.server.planner == o.planner && RecordedEverywhere(w', request, o.outcome)
            && (forall id :: id != request.Id() ==>
                  && (id in w'.server.entries <==> id in w.server.entries)
                  && (id in w.server.entries ==> w'.server.entries[id] == w.server.entries[id]))
  {
    AcceptsMeans(side, request);
    RunThree(side, w, Begin(request, Completes), Perform(env), Complete(Completes), []);
    assert Uninterrupted(request, env) + [] == Uninterrupted(request, env);
  }

  /** A first submission of held bytes sends exactly them and answers what the node made of them. */
  lemma SubmissionIsAnswered(side: Sidecar, w: World, request: Request, env: Env)
    requires Configured(side.config) && WorldInv(side, w) && Awaits(w, request) && ForThis(side, request)
    requires request.ForSubmission? && request.transaction in Held(w.server.planner)
    ensures var w' := Run(side, w, Uninterrupted(request, env));
            && |w'.replies| == |w.replies| + 1 && w'.replies[|w.replies|].request == request
            && SubmissionAnswer(request, env.node, w'.replies[|w.replies|].outcome)
            && |w'.sends| == |w.sends| + 1 && w'.sends[|w.sends|].id == request.Id()
            && request.transaction == PreparedFrom(w'.sends[|w.sends|].transaction)
  {
    SubmissionMeans(side, w.server.planner, request, env);
    FirstRequestIsAnswered(side, w, request, env);
  }

  // ----- The same request again -------------------------------------------------------------------------------

  /**
   A request whose id is taken changes nothing in memory. The same request is answered what is recorded, once
   that is on disk; another one is not answered.
   */
  lemma TakenIdIsReplayed(side: Sidecar, w: World, request: Request, fault: Fault)
    requires WorldInv(side, w) && Idle(w) && ForThis(side, request) && request.Id() in w.server.entries
    ensures var w' := Apply(side, w, Begin(request, fault));
            var record := w.server.entries[request.Id()];
            && Idle(w') && w'.server.entries == w.server.entries && w'.server.planner == w.server.planner
            && w'.sends == w.sends
            && w'.replies == w.replies + (if record.digest.request == request
                                             && (!w.server.dirty || fault == Completes)
                                          then [Answer(request, record.outcome)] else [])
            && (w'.replies != w.replies ==> !w'.server.dirty && w'.disk.visible == w'.server.entries)
  {
    AcceptsMeans(side, request);
    assert EntryOk(request.Id(), w.server.entries[request.Id()]);
  }

  /** The guard of a submission is recorded, on every file a crash could leave, before anything is handed over. */
  lemma GuardIsRecorded(side: Sidecar, w: World, request: Request)
    requires Awaits(w, request) && ForThis(side, request) && request.ForSubmission?
    ensures var begun := Apply(side, w, Begin(request, Completes));
            && begun.replies == w.replies && begun.sends == w.sends
            && begun.server == Up(begun.server.entries, false, w.server.planner, Some(Running(request, Guarded)))
            && Unanswered(begun, request)
  {
    AcceptsMeans(side, request);
  }

  /** The only record of a submission, wherever one looks, says that its outcome is unknown. */
  predicate Unanswered(w: World, request: Request) {
    && w.disk.possible == {w.disk.visible} && request.Id() in w.disk.visible
    && w.disk.visible[request.Id()]
       == Entry(SubmitTransaction, Sha(request), None, SubmissionInFlight(Reply(request.Ctx(), UnknownSubmission)))
  }

  /** Killed with only the guard on disk, a submission is answered as unknown from then on. */
  lemma UnansweredIsUnknown(side: Sidecar, w: World, request: Request)
    requires WorldInv(side, w) && Unanswered(w, request) && ForThis(side, request)
    ensures var up := Apply(side, Apply(side, w, KillProcess), Restart);
            var again := Apply(side, up, Begin(request, Completes));
            && Idle(up) && again.sends == w.sends
            && again.replies
               == w.replies + [Answer(request, SubmissionInFlight(Reply(request.Ctx(), UnknownSubmission)))]
  {
    StartsAgain(side, w);
    TakenIdIsReplayed(side, Apply(side, Apply(side, w, KillProcess), Restart), request, Completes);
  }

  /** A killed process starts again over what its disk shows. */
  lemma StartsAgain(side: Sidecar, w: World)
    requires WorldInv(side, w)
    ensures var up := Apply(side, Apply(side, w, KillProcess), Restart);
            && WorldInv(side, up) && Idle(up) && up.disk == w.disk && up.sends == w.sends && up.replies == w.replies
            && up.server.entries == w.disk.visible && !up.server.dirty
  {
    StepKeeps(side, w, KillProcess);
    StartsOver(side, w.(server := Down));
  }

  lemma StartsOver(side: Sidecar, w: World)
    requires WorldInv(side, w) && w.server.Down?
    ensures var up := Apply(side, w, Restart);
            && WorldInv(side, up) && Idle(up) && up.disk == w.disk && up.sends == w.sends && up.replies == w.replies
            && up.server.entries == w.disk.visible && !up.server.dirty
  {
    RestartKeeps(side, w);
  }

  /**
   A submission whose process is killed once its guard is durable, before or after it was handed over, is
   answered as unknown ever after and never handed over again.
   */
  lemma KilledSubmissionIsUnknown(side: Sidecar, w: World, request: Request, env: Env, operated: bool)
    requires WorldInv(side, w) && Awaits(w, request) && ForThis(side, request) && request.ForSubmission?
    ensures var begun := Apply(side, w, Begin(request, Completes));
            var before := if operated then Apply(side, begun, Perform(env)) else begun;
            var again := Apply(side, Apply(side, Apply(side, before, KillProcess), Restart), Begin(request, Completes));
            && again.sends == before.sends
            && again.replies
               == w.replies + [Answer(request, SubmissionInFlight(Reply(request.Ctx(), UnknownSubmission)))]
  {
    GuardIsRecorded(side, w, request);
    StepKeeps(side, w, Begin(request, Completes));
    var begun := Apply(side, w, Begin(request, Completes));
    if operated {
      StepKeeps(side, begun, Perform(env));
      UnansweredIsUnknown(side, Apply(side, begun, Perform(env)), request);
    } else {
      UnansweredIsUnknown(side, begun, request);
    }
  }

  /** A cancelled request leaves the server idle, and with its planner, its map and its disk as they are. */
  lemma CancelMeans(side: Sidecar, w: World)
    requires w.server.Up?
    ensures Apply(side, w, Cancel) == w.(server := Up(w.server.entries, w.server.dirty, w.server.planner, None))
  {
  }

  /** Cancelled with only the guard recorded, a submission is answered as unknown without a restart. */
  lemma CancelledSubmissionIsUnknown(side: Sidecar, w: World, request: Request)
    requires WorldInv(side, w) && Awaits(w, request) && ForThis(side, request) && request.ForSubmission?
    ensures var cancelled := Apply(side, Apply(side, w, Begin(request, Completes)), Cancel);
            var again := Apply(side, cancelled, Begin(request, Completes));
            && Idle(cancelled) && again.sends == w.sends
            && again.replies
               == w.replies + [Answer(request, SubmissionInFlight(Reply(request.Ctx(), UnknownSubmission)))]
  {
    GuardIsRecorded(side, w, request);
    var begun := Apply(side, w, Begin(request, Completes));
    StepKeeps(side, w, Begin(request, Completes));
    StepKeeps(side, begun, Cancel);
    TakenIdIsReplayed(side, Apply(side, begun, Cancel), request, Completes);
  }
}
