/** The server object: it owns a store and a planner, and each request takes it through the steps of the bridge. */
module Server {
  import opened Wrappers
  import opened Nssa
  import opened Planner
  import opened Store
  import opened Bridge
  import opened PlannerTheorems
  import opened RequestTheorems

  class BridgeServer {
    const side: Sidecar
    const store: DurableStore
    const planner: NativeEscrowPlanner
    ghost var sends: seq<Send>
    ghost var replies: seq<Answer>

    ghost predicate Valid()
      reads this, store, planner
    {
      planner.config == side.config && store.Valid() && planner.Valid()
    }

    /** The bridge state this object stands for while it works on `running`. */
    ghost function ViewWith(running: Option<Running>): World
      reads this, store, planner
    {
      World(store.disk, Up(store.entries, store.dirty, planner.State(), running), sends, replies)
    }

    /** The bridge state this object stands for between requests. */
    ghost function View(): World
      reads this, store, planner
    {
      ViewWith(None)
    }

    constructor (side: Sidecar, store: DurableStore, planner: NativeEscrowPlanner, ghost sends: seq<Send>,
                 ghost replies: seq<Answer>)
      requires planner.config == side.config && store.Valid() && planner.Valid()
      ensures Valid() && this.side == side && this.store == store && this.planner == planner
      ensures this.sends == sends && this.replies == replies
    {
      this.side, this.store, this.planner := side, store, planner;
      this.sends, this.replies := sends, replies;
    }

    method ReserveRequest(request: Request, guard: Fault) returns (refusal: Option<Failure>)
      requires Valid()
      modifies store
      ensures Valid()
      ensures ViewWith(if refusal.None? then Some(Running(request, Guarded)) else None)
              == AfterReserve(old(View()), request, guard)
    {
      refusal := store.ReserveSlot(request, guard);
    }

    method BeginRequest(request: Request, guard: Fault) returns (answer: Result<Option<Outcome>, Failure>)
      requires Valid()
      modifies this, store
      ensures Valid()
      ensures ViewWith(if answer == Ok(None) then Some(Running(request, Guarded)) else None)
              == Apply(side, old(View()), Begin(request, guard))
      ensures replies == old(replies) + if answer.Ok? && answer.value.Some? then [Answer(request, answer.value.value)]
              else []
      ensures !Accepts(side, request) ==>
                answer == Err(if request.Ctx().runId == side.run
                              && request.Ctx().role != side.config.runtime.role then WrongRole else InvalidRequest)
    {
      if !Accepts(side, request) {
        return Err(if request.Ctx().runId == side.run && request.Ctx().role != side.config.runtime.role then WrongRole
                   else InvalidRequest);
      }
      ghost var w := View();
      answer := store.ReplayAnswer(request, guard);
      assert View() == WithStore(w, Replay(StoreOf(w), request, guard).store, None);
      if answer == Ok(None) {
        assert View() == w;
        var refusal := ReserveRequest(request, guard);
        if refusal.Some? { return Err(refusal.value); }
      } else if answer.Ok? {
        replies := replies + [Answer(request, answer.value.value)];
      }
    }

    method PlanOrSubmit(request: Request, env: Env) returns (outcome: Outcome, handed: Option<PublicTransaction>)
      requires Valid()
      modifies planner
      ensures Valid()
      ensures Operation(planner.State(), outcome, handed) == Operate(side, old(planner.State()), request, env)
      ensures request.ForSubmission? && ForThis(side, request) ==>
                var held := request.transaction in Held(planner.State());
                && (handed.Some? <==> held) && (held ==> request.transaction == PreparedFrom(handed.value))
                && (held ==> SubmissionAnswer(request, env.node, outcome))
                && (!held ==> outcome == Refusal(request, InvalidTransaction))
    {
      CheckMeans(side.config);
      if request.ForSubmission? && ForThis(side, request) {
        SubmissionMeans(side, planner.State(), request, env);
      }
      handed := None;
      match request {
        case ForEscrow(r) =>
          var result := planner.Prepare(r, env.nonce, env.entropy);
          outcome := OutcomeOf(request, if result.Ok? then Ok(EscrowValue(result.value)) else Err(result.error));
        case ForClaim(r) =>
          var result := planner.PrepareRevealingClaim(r, env.nonce, env.entropy.0);
          outcome := OutcomeOf(request, if result.Ok? then Ok(ClaimValue(result.value)) else Err(result.error));
        case ForRefund(r) =>
          var result := planner.PrepareNativeRefund(r);
          outcome := OutcomeOf(request, if result.Ok? then Ok(RefundValue(result.value)) else Err(result.error));
        case _ =>
          var operation := Operate(side, planner.State(), request, env);
          outcome, handed := operation.outcome, operation.handed;
      }
    }

    method PerformOperation(request: Request, env: Env) returns (outcome: Outcome)
      requires Valid()
      modifies this, planner
      ensures Valid() && replies == old(replies)
      ensures ViewWith(Some(Running(request, Operated(outcome))))
              == Apply(side, old(ViewWith(Some(Running(request, Guarded)))), Perform(env))
    {
      var handed;
      outcome, handed := PlanOrSubmit(request, env);
      if handed.Some? { sends := sends + [Send(request.Id(), handed.value)]; }
    }

    method CompleteRequest(request: Request, outcome: Outcome, last: Fault) returns (ok: bool)
      requires Valid()
      modifies this, store
      ensures Valid()
      ensures View() == Apply(side, old(ViewWith(Some(Running(request, Operated(outcome))))), Complete(last))
      ensures replies == old(replies) + if ok then [Answer(request, outcome)] else []
    {
      ok := store.FinishRequest(request, outcome, last);
      if ok { replies := replies + [Answer(request, outcome)]; }
    }

    /** Replay, reserve, operate, finish: one uninterrupted request is the three steps of the bridge. */
    method TakeSteps(request: Request, guard: Fault, env: Env, last: Fault) returns (answer: Result<Outcome, Failure>)
      requires Valid()
      modifies this, store, planner
      ensures Valid()
      ensures View() == Run(side, old(View()), [Begin(request, guard), Perform(env), Complete(last)])
      ensures replies == old(replies) + if answer.Ok? then [Answer(request, answer.value)] else []
      ensures !Accepts(side, request) ==> answer.Err? && View() == old(View())
    {
      RunThree(side, View(), Begin(request, guard), Perform(env), Complete(last), []);
      assert [Begin(request, guard), Perform(env), Complete(last)] + []
             == [Begin(request, guard), Perform(env), Complete(last)];
      var begun := BeginRequest(request, guard);
      if begun.Err? { return Err(begun.error); }
      if begun.value.Some? { return Ok(begun.value.value); }
      var outcome := PerformOperation(request, env);
      var ok := CompleteRequest(request, outcome, last);
      if !ok { return Err(Internal); }
      return Ok(outcome);
    }

    /**
     One request. It takes the three steps of the bridge; a first request whose persistences complete is answered
     what its operation makes of it, for held bytes what the node makes of them; a request for another sidecar is
     refused and changes nothing.
     */
    method Execute(request: Request, guard: Fault, env: Env, last: Fault) returns (answer: Result<Outcome, Failure>)
      requires Valid()
      modifies this, store, planner
      ensures Valid()
      ensures View() == Run(side, old(View()), [Begin(request, guard), Perform(env), Complete(last)])
      ensures replies == old(replies) + if answer.Ok? then [Answer(request, answer.value)] else []
      ensures !ForThis(side, request) ==> answer.Err? && View() == old(View())
      ensures old(Awaits(View(), request)) && ForThis(side, request) && guard == last == Completes ==>
                && answer == Ok(Operate(side, old(planner.State()), request, env).outcome)
                && (request.ForSubmission? && request.transaction in Held(old(planner.State())) ==>
                      SubmissionAnswer(request, env.node, answer.value))
    {
      AcceptsMeans(side, request);
      CheckMeans(side.config);
      if Awaits(View(), request) && ForThis(side, request) && guard == last == Completes {
        FirstRequestIsAnswered(side, View(), request, env);
        if request.ForSubmission? { SubmissionMeans(side, planner.State(), request, env); }
      }
      ghost var n, o := |replies|, Operate(side, planner.State(), request, env);
      assert guard == last == Completes ==>
             [Begin(request, guard), Perform(env), Complete(last)] == Uninterrupted(request, env);
      answer := TakeSteps(request, guard, env, last);
      assert old(Awaits(View(), request)) && ForThis(side, request) && guard == last == Completes ==>
             |View().replies| == n + 1 && View().replies[n] == Answer(request, o.outcome);
    }
  }

  /** Replays a map's preparations, in order, into a new planner. */
  method RestorePlanner(config: Config, entries: Entries) returns (r: Result<NativeEscrowPlanner, ()>)
    requires config.Check().None?
    ensures r.Ok? <==> Start(config, entries).Ok?
    ensures r.Ok? ==>
            fresh(r.value) && r.value.Valid() && r.value.config == config
                && r.value.State() == Start(config, entries).value
  {
    if !OpenAccepts(entries) { return Err(()); }
    var planner := new NativeEscrowPlanner(config);
    var pair := Restored(entries, PrepareNativeEscrow);
    var claim := Restored(entries, PrepareRevealingClaim);
    var refund := Restored(entries, PrepareNativeRefund);
    if pair.Err? || claim.Err? || refund.Err? { return Err(()); }
    if pair.value.Some? {
      var done := planner.RestorePrepared(pair.value.value.0.escrow, pair.value.value.1.escrow);
      if done.Err? { return Err(()); }
    }
    if claim.value.Some? {
      var done := planner.RestoreRevealingClaim(claim.value.value.0.claim, claim.value.value.1.claim);
      if done.Err? { return Err(()); }
    }
    if refund.value.Some? {
      var done := planner.RestoreNativeRefund(refund.value.value.0.refund, refund.value.value.1.refund);
      if done.Err? { return Err(()); }
    }
    return Ok(planner);
  }

  /** `start_bridge_server`: the map is opened, its preparations replayed, and the server is up. */
  method StartServer(side: Sidecar, disk: Disk, ghost sends: seq<Send>, ghost replies: seq<Answer>)
    returns (r: Result<BridgeServer, ()>)
    requires side.config.Check().None? && disk.visible in disk.possible
    ensures r.Ok? <==> Start(side.config, disk.visible).Ok?
    ensures r.Ok? ==> r.value.Valid() && fresh(r.value) && r.value.side == side
    ensures r.Ok? ==> r.value.View() == Apply(side, World(disk, Down, sends, replies), Restart)
  {
    var planner := RestorePlanner(side.config, disk.visible);
    if planner.Err? { return Err(()); }
    var store := new DurableStore(disk);
    var server := new BridgeServer(side, store, planner.value, sends, replies);
    return Ok(server);
  }
}
