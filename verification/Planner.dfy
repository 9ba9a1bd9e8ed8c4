/**
 The one-role, one-signer native planner: three slots (native pair, revealing claim, refund)
 that are filled at most once, by a fresh preparation or by restoring a durable one.
 The functions give the planner's meaning on values; the class updates its slots in place
 and is proved against them.
 */
module Planner {
  import opened Wrappers
  import opened Nssa

  datatype Context = Context(runId: nat, requestId: RequestId, role: Participant)

  datatype Runtime = Runtime(role: Participant, compatible: bool, signer: AccountId, escrowProgram: ProgramId)

  datatype Config = Config(role: Participant, key: SigningKey, escrowProgram: ProgramId, runtime: Runtime) {
    function Signer(): AccountId { KeyAccount(key) }

    /** The identity checks of `NativeEscrowPlanner::new`. */
    function Check(): Option<SidecarError> {
      if runtime.role != role then Some(WrongSidecarRole)
      else if !runtime.compatible then Some(WrongRuntimeCompatibility)
      else if runtime.signer != Signer() then Some(WrongSigner)
      else if runtime.escrowProgram != escrowProgram then Some(WrongEscrowProgram)
      else None
    }
  }

  datatype EscrowRequest = EscrowRequest(context: Context, runtime: Runtime, terms: Terms)
  datatype EscrowResult = EscrowResult(context: Context, initialization: Prepared, funding: Prepared)

  datatype ClaimRequest = ClaimRequest(context: Context, runtime: Runtime, terms: Terms,
                                       fundingId: nat, preimage: nat)
  datatype ClaimResult = ClaimResult(context: Context, claim: Prepared)
  /** The fingerprint under which a claim request is remembered. */
  datatype ClaimDigest = ClaimSha(request: ClaimRequest)

  datatype RefundTerms = Hashlock(terms: Terms) | Witnessed(terms: Terms)
  datatype RefundRequest = RefundRequest(context: Context, runtime: Runtime, terms: RefundTerms)
  datatype RefundResult = RefundResult(context: Context, refund: Prepared)

  datatype ActivePair = ActivePair(request: EscrowRequest, result: EscrowResult)
  datatype ActiveClaim = ActiveClaim(digest: ClaimDigest, result: ClaimResult, terms: Terms, fundingId: nat,
                                     preimage: nat)
  datatype ActiveRefund = ActiveRefund(request: RefundRequest, result: RefundResult)

  datatype PlannerState = PlannerState(native: Option<ActivePair>, claim: Option<ActiveClaim>,
                                       refund: Option<ActiveRefund>)

  const EMPTY_PLANNER := PlannerState(None, None, None)

  datatype Planned<T> = Planned(state: PlannerState, result: Result<T, SidecarError>)

  // ----- Request validation -------------------------------------------------------------------

  function ValidateEscrow(config: Config, request: EscrowRequest): Option<SidecarError> {
    if request.runtime != config.runtime then Some(WrongRuntimeIdentity)
    else if request.context.role != config.role || request.runtime.role != config.role then Some(WrongSidecarRole)
    else if !request.runtime.compatible then Some(WrongRuntimeCompatibility)
    else if request.terms.depositor != config.role then Some(WrongDepositorRole)
    else if request.runtime.signer != config.Signer() || request.terms.depositorAccount != config.Signer()
        then Some(WrongSigner)
    else if request.runtime.escrowProgram != config.escrowProgram then Some(WrongEscrowProgram)
    else if request.terms.transferProgram != AUTHENTICATED_TRANSFER then Some(WrongAuthenticatedTransferProgram)
    else None
  }

  function ValidateClaim(config: Config, request: ClaimRequest): Option<SidecarError> {
    if request.context.role != config.role || request.runtime.role != config.role then Some(WrongSidecarRole)
    else if request.runtime != config.runtime then Some(WrongRuntimeIdentity)
    else if !request.runtime.compatible then Some(WrongRuntimeCompatibility)
    else if request.terms.claimant != config.role then Some(WrongClaimantRole)
    else if request.runtime.signer != config.Signer() || request.terms.claimantAccount != config.Signer()
        then Some(WrongSigner)
    else if request.runtime.escrowProgram != config.escrowProgram then Some(WrongEscrowProgram)
    else if request.terms.transferProgram != AUTHENTICATED_TRANSFER then Some(WrongAuthenticatedTransferProgram)
    else if request.fundingId == 0 then Some(InvalidFundingTransaction)
    else if request.terms.secretDigest != Sha256(request.preimage) then Some(WrongClaimPreimage)
    else None
  }

  function ValidateRefund(config: Config, request: RefundRequest): Option<SidecarError> {
    var terms := request.terms.terms;
    if request.context.role != config.role || request.runtime.role != config.role then Some(WrongSidecarRole)
    else if request.runtime != config.runtime then Some(WrongRuntimeIdentity)
    else if !request.runtime.compatible then Some(WrongRuntimeCompatibility)
    else if terms.depositor != config.role then Some(WrongDepositorRole)
    else if request.runtime.signer != config.Signer() || terms.depositorAccount != config.Signer()
        then Some(WrongSigner)
    else if request.runtime.escrowProgram != config.escrowProgram then Some(WrongEscrowProgram)
    else if terms.transferProgram != AUTHENTICATED_TRANSFER then Some(WrongAuthenticatedTransferProgram)
    else None
  }

  /** The one signer nonce of a prepared transaction of this planner. */
  function PreparedNonce(config: Config, prepared: Prepared): (r: Result<u128, SidecarError>) {
    match DecodePrepared(prepared, config.Signer())
    case Err(e) => Err(e)
    case Ok(transaction) => Ok(transaction.message.nonces[0])
  }

  // ----- Preparation --------------------------------------------------------------------------

  /** Fills or replays the native slot; `nonce` is the node's answer, if it answered. */
  function PrepareEscrow(config: Config, state: PlannerState, request: EscrowRequest,
                         nonce: Option<u128>, entropy: (nat, nat)): Planned<EscrowResult> {
    var invalid := ValidateEscrow(config, request);
    if invalid.Some? then Planned(state, Err(invalid.value))
    else if state.native.Some? then
      Planned(state, if state.native.value.request == request then Ok(state.native.value.result)
              else Err(ActivePrepare))
    else if nonce.None? then Planned(state, Err(NonceUnavailable))
    else if nonce.value == U128_MAX then Planned(state, Err(NonceOverflow))
    else
      var first: u128 := nonce.value;
      var second: u128 := first + 1;
      var conflict := PairConflict(config, state, first);
      if conflict.Some? then Planned(state, Err(conflict.value))
      else
        var result := EscrowResult(request.context,
                                   Sign(config.key, InitializationMessage(config.escrowProgram, request.terms, first),
                                        entropy.0),
                                   Sign(config.key, FundingMessage(config.escrowProgram, request.terms, second),
                                        entropy.1));
        Planned(state.(native := Some(ActivePair(request, result))), Ok(result))
  }

  function RememberClaim(request: ClaimRequest, result: ClaimResult): ActiveClaim {
    ActiveClaim(ClaimSha(request), result, request.terms, request.fundingId, request.preimage)
  }

  function PrepareClaim(config: Config, state: PlannerState, request: ClaimRequest,
                        nonce: Option<u128>, entropy: nat): Planned<ClaimResult> {
    var invalid := ValidateClaim(config, request);
    if invalid.Some? then Planned(state, Err(invalid.value))
    else if state.claim.Some? then
      Planned(state, if state.claim.value.digest == ClaimSha(request) then Ok(state.claim.value.result)
              else Err(ActiveClaimPrepare))
    else if nonce.None? then Planned(state, Err(NonceUnavailable))
    else
      var conflict := ClaimConflict(config, state, nonce.value);
      if conflict.Some? then Planned(state, Err(conflict.value))
      else
        var message := ClaimMessage(config.escrowProgram, request.terms, config.Signer(), nonce.value,
                                    request.preimage);
        var result := ClaimResult(request.context, Sign(config.key, message, entropy));
        Planned(state.(claim := Some(RememberClaim(request, result))), Ok(result))
  }

  /** Why a claim nonce cannot be taken beside the native slot, if it cannot. */
  function ClaimConflict(config: Config, state: PlannerState, nonce: u128): Option<SidecarError> {
    if state.native.None? then None
    else
      match (PreparedNonce(config, state.native.value.result.initialization),
             PreparedNonce(config, state.native.value.result.funding))
      case (Err(e), _) => Some(e)
      case (Ok(first), Err(e)) => if first == nonce then Some(ActiveClaimPrepare) else Some(e)
      case (Ok(first), Ok(second)) => if first == nonce || second == nonce then Some(ActiveClaimPrepare) else None
  }

  /** Why a pair starting at `first` cannot be taken beside the claim slot, if it cannot. */
  function PairConflict(config: Config, state: PlannerState, first: u128): Option<SidecarError> {
    if state.claim.None? then None
    else
      match PreparedNonce(config, state.claim.value.result.claim)
      case Err(e) => Some(e)
      case Ok(claim) => if claim == first || claim == first + 1 then Some(ActivePrepare) else None
  }

  function PrepareRefund(config: Config, state: PlannerState, request: RefundRequest): Planned<RefundResult> {
    var invalid := ValidateRefund(config, request);
    if invalid.Some? then Planned(state, Err(invalid.value))
    else if state.refund.Some? then
      Planned(state, if state.refund.value.request == request then Ok(state.refund.value.result)
              else Err(ActiveRefundPrepare))
    else if request.terms.Witnessed? then Planned(state, Err(ProtocolEncoding))
    else
      var result := RefundResult(request.context, Unsigned(RefundMessage(config.escrowProgram, request.terms.terms)));
      Planned(state.(refund := Some(ActiveRefund(request, result))), Ok(result))
  }

  // ----- Restoration --------------------------------------------------------------------------

  /** Every check `restore_prepared` makes before it looks at the slots; the initialization nonce on success. */
  function CheckRestoredPair(config: Config, request: EscrowRequest, result: EscrowResult): Result<u128, SidecarError> {
    var invalid := ValidateEscrow(config, request);
    if invalid.Some? then Err(invalid.value)
    else if result.context != request.context || result.initialization == result.funding
            || result.initialization.id == result.funding.id then Err(ProtocolEncoding)
    else
      var initialization := DecodePrepared(result.initialization, config.Signer());
      var funding := DecodePrepared(result.funding, config.Signer());
      if initialization.Err? then Err(initialization.error)
      else if funding.Err? then Err(funding.error)
      else
        var first := initialization.value.message.nonces[0];
        if first == U128_MAX then Err(NonceOverflow)
        else if funding.value.message.nonces[0] != first + 1 then Err(InvalidTransactionBytes)
        else if initialization.value.message != InitializationMessage(config.escrowProgram, request.terms, first)
                || funding.value.message != FundingMessage(config.escrowProgram, request.terms, first + 1)
        then Err(InvalidTransactionBytes)
        else Ok(first)
  }

  function RestorePair(config: Config, state: PlannerState, request: EscrowRequest, result: EscrowResult): Planned<()> {
    var checked := CheckRestoredPair(config, request, result);
    if checked.Err? then Planned(state, Err(checked.error))
    else
      var conflict := PairConflict(config, state, checked.value);
      if conflict.Some? then Planned(state, Err(conflict.value))
      else if state.native.Some? then
        Planned(state, if state.native.value == ActivePair(request, result) then Ok(()) else Err(ActivePrepare))
      else Planned(state.(native := Some(ActivePair(request, result))), Ok(()))
  }

  function CheckRestoredClaim(config: Config, request: ClaimRequest, result: ClaimResult): Result<u128, SidecarError> {
    var invalid := ValidateClaim(config, request);
    if invalid.Some? then Err(invalid.value)
    else if result.context != request.context then Err(ProtocolEncoding)
    else
      var claim := DecodePrepared(result.claim, config.Signer());
      if claim.Err? then Err(claim.error)
      else
        var nonce := claim.value.message.nonces[0];
        if claim.value.message != ClaimMessage(config.escrowProgram, request.terms, config.Signer(), nonce,
                                               request.preimage)
        then Err(InvalidTransactionBytes)
        else Ok(nonce)
  }

  function RestoreClaim(config: Config, state: PlannerState, request: ClaimRequest, result: ClaimResult): Planned<()> {
    var checked := CheckRestoredClaim(config, request, result);
    if checked.Err? then Planned(state, Err(checked.error))
    else
      var conflict := ClaimConflict(config, state, checked.value);
      if conflict.Some? then Planned(state, Err(conflict.value))
      else if state.claim.Some? then
        Planned(state, if state.claim.value.digest == ClaimSha(request) && state.claim.value.result == result
                       then Ok(()) else Err(ActiveClaimPrepare))
      else Planned(state.(claim := Some(RememberClaim(request, result))), Ok(()))
  }

  function CheckRestoredRefund(config: Config, request: RefundRequest, result: RefundResult): Option<SidecarError> {
    var invalid := ValidateRefund(config, request);
    if invalid.Some? then invalid
    else if result.context != request.context then Some(ProtocolEncoding)
    else if request.terms.Witnessed? then Some(ProtocolEncoding)
    else
      var decoded := DecodeUnsignedRefund(result.refund, RefundMessage(config.escrowProgram, request.terms.terms));
      if decoded.Err? then Some(decoded.error) else None
  }

  function RestoreRefund(config: Config, state: PlannerState, request: RefundRequest,
                         result: RefundResult): Planned<()> {
    var invalid := CheckRestoredRefund(config, request, result);
    if invalid.Some? then Planned(state, Err(invalid.value))
    else if state.refund.Some? then
      Planned(state, if state.refund.value == ActiveRefund(request, result) then Ok(()) else Err(ActiveRefundPrepare))
    else Planned(state.(refund := Some(ActiveRefund(request, result))), Ok(()))
  }

  // ----- Submission boundary ------------------------------------------------------------------

  /** The exact transactions a planner is willing to hand to the node. */
  function Held(state: PlannerState): set<Prepared> {
    (if state.native.Some? then {state.native.value.result.initialization, state.native.value.result.funding} else {})
    + (if state.claim.Some? then {state.claim.value.result.claim} else {})
    + (if state.refund.Some? then {state.refund.value.result.refund} else {})
  }

  function DecodeExactForSubmission(config: Config, state: PlannerState, prepared: Prepared, role: Participant)
    : (r: Result<PublicTransaction, SidecarError>)
    ensures r.Ok? ==> prepared in Held(state) && prepared == PreparedFrom(r.value)
  {
    if role != config.role then Err(WrongSidecarRole)
    else
      var pairMatch := state.native.Some?
                       && (prepared == state.native.value.result.initialization
                           || prepared == state.native.value.result.funding);
      var claimMatch := state.claim.Some? && prepared == state.claim.value.result.claim;
      var refundMatch := state.refund.Some? && prepared == state.refund.value.result.refund;
      if !pairMatch && !claimMatch && !refundMatch then Err(TransactionNotPrepared)
      else if refundMatch then
        var request := state.refund.value.request;
        if request.terms.Witnessed? then Err(ProtocolEncoding)
        else DecodeUnsignedRefund(prepared, RefundMessage(config.escrowProgram, request.terms.terms))
      else
        var decoded := DecodePrepared(prepared, config.Signer());
        if decoded.Ok? && decoded.value.message.program != config.escrowProgram then Err(WrongEscrowProgram)
        else decoded
  }

  // ----- The invariant of every reachable planner ----------------------------------------------

  predicate PairOk(config: Config, pair: ActivePair) {
    CheckRestoredPair(config, pair.request, pair.result).Ok?
  }

  predicate ClaimOk(config: Config, claim: ActiveClaim) {
    && CheckRestoredClaim(config, claim.digest.request, claim.result).Ok?
    && claim == RememberClaim(claim.digest.request, claim.result)
  }

  predicate RefundOk(config: Config, refund: ActiveRefund) {
    CheckRestoredRefund(config, refund.request, refund.result).None?
  }

  /** Slots hold what the restore checks accept, and no signer nonce is held twice. */
  predicate PlannerInv(config: Config, state: PlannerState) {
    && (state.native.Some? ==> PairOk(config, state.native.value))
    && (state.claim.Some? ==> ClaimOk(config, state.claim.value))
    && (state.refund.Some? ==> RefundOk(config, state.refund.value))
    && NoncesApart(config, state)
  }

  /** What the planner is for: the pair's nonces are consecutive u128 values and the claim's is neither. */
  predicate NoncesApart(config: Config, state: PlannerState) {
    && (state.native.Some? ==>
          var first := PreparedNonce(config, state.native.value.result.initialization);
          var second := PreparedNonce(config, state.native.value.result.funding);
          first.Ok? && second.Ok? && second.value == first.value + 1)
    && (state.native.Some? && state.claim.Some? ==>
          var claim := PreparedNonce(config, state.claim.value.result.claim);
          && claim.Ok?
          && claim != PreparedNonce(config, state.native.value.result.initialization)
          && claim != PreparedNonce(config, state.native.value.result.funding))
  }

  /** Later states keep every filled slot as it is. */
  predicate Grows(before: PlannerState, after: PlannerState) {
    && (before.native.Some? ==> after.native == before.native)
    && (before.claim.Some? ==> after.claim == before.claim)
    && (before.refund.Some? ==> after.refund == before.refund)
  }

  lemma PrepareEscrowKeeps(config: Config, state: PlannerState, request: EscrowRequest, nonce: Option<u128>,
                           entropy: (nat, nat))
    requires PlannerInv(config, state)
    ensures var p := PrepareEscrow(config, state, request, nonce, entropy);
            && PlannerInv(config, p.state) && Grows(state, p.state)
            && (p.result.Ok? ==> p.state.native == Some(ActivePair(request, p.result.value)))
            && (p.result.Err? ==> p.state == state)
  {
    var p := PrepareEscrow(config, state, request, nonce, entropy);
    if p.result.Ok? && state.native.None? {
      SignDecodes(config.key, InitializationMessage(config.escrowProgram, request.terms, nonce.value), entropy.0);
      SignDecodes(config.key, FundingMessage(config.escrowProgram, request.terms, nonce.value + 1), entropy.1);
    }
  }

  lemma PrepareClaimKeeps(config: Config, state: PlannerState, request: ClaimRequest, nonce: Option<u128>, entropy: nat)
    requires PlannerInv(config, state)
    ensures var p := PrepareClaim(config, state, request, nonce, entropy);
            && PlannerInv(config, p.state) && Grows(state, p.state)
            && (p.result.Ok? ==> p.state.claim == Some(RememberClaim(request, p.result.value)))
            && (p.result.Err? ==> p.state == state)
  {
    var p := PrepareClaim(config, state, request, nonce, entropy);
    if p.result.Ok? && state.claim.None? {
      SignDecodes(config.key, ClaimMessage(config.escrowProgram, request.terms, config.Signer(), nonce.value,
                                           request.preimage), entropy);
    }
  }

  lemma PrepareRefundKeeps(config: Config, state: PlannerState, request: RefundRequest)
    requires PlannerInv(config, state)
    ensures var p := PrepareRefund(config, state, request);
            && PlannerInv(config, p.state) && Grows(state, p.state)
            && (p.result.Ok? ==> p.state.refund == Some(ActiveRefund(request, p.result.value)))
            && (p.result.Err? ==> p.state == state)
  {
  }

  lemma RestorePairKeeps(config: Config, state: PlannerState, request: EscrowRequest, result: EscrowResult)
    requires PlannerInv(config, state)
    ensures var p := RestorePair(config, state, request, result);
            && PlannerInv(config, p.state) && Grows(state, p.state)
            && (p.result.Ok? ==> p.state.native == Some(ActivePair(request, result)))
  {
  }

  lemma RestoreClaimKeeps(config: Config, state: PlannerState, request: ClaimRequest, result: ClaimResult)
    requires PlannerInv(config, state)
    ensures var p := RestoreClaim(config, state, request, result);
            && PlannerInv(config, p.state) && Grows(state, p.state)
            && (p.result.Ok? ==> p.state.claim == Some(RememberClaim(request, result)))
  {
  }

  // ----- Whole runs of one planner ------------------------------------------------------------

  datatype Call =
    | CallPrepareEscrow(escrow: EscrowRequest, nonce: Option<u128>, entropies: (nat, nat))
    | CallPrepareClaim(claim: ClaimRequest, nonce: Option<u128>, entropy: nat)
    | CallPrepareRefund(refund: RefundRequest)
    | CallRestorePair(escrow: EscrowRequest, escrowResult: EscrowResult)
    | CallRestoreClaim(claim: ClaimRequest, claimResult: ClaimResult)
    | CallRestoreRefund(refund: RefundRequest, refundResult: RefundResult)

  function AfterCall(config: Config, state: PlannerState, call: Call): PlannerState {
    match call
    case CallPrepareEscrow(request, nonce, entropies) => PrepareEscrow(config, state, request, nonce, entropies).state
    case CallPrepareClaim(request, nonce, entropy) => PrepareClaim(config, state, request, nonce, entropy).state
    case CallPrepareRefund(request) => PrepareRefund(config, state, request).state
    case CallRestorePair(request, result) => RestorePair(config, state, request, result).state
    case CallRestoreClaim(request, result) => RestoreClaim(config, state, request, result).state
    case CallRestoreRefund(request, result) => RestoreRefund(config, state, request, result).state
  }

  function AfterCalls(config: Config, state: PlannerState, calls: seq<Call>): PlannerState
    decreases |calls|
  {
    if calls == [] then state else AfterCalls(config, AfterCall(config, state, calls[0]), calls[1..])
  }

  lemma CallKeeps(config: Config, state: PlannerState, call: Call)
    requires PlannerInv(config, state)
    ensures PlannerInv(config, AfterCall(config, state, call)) && Grows(state, AfterCall(config, state, call))
  {
    match call
    case CallPrepareEscrow(request, nonce, entropies) => PrepareEscrowKeeps(config, state, request, nonce, entropies);
    case CallPrepareClaim(request, nonce, entropy) => PrepareClaimKeeps(config, state, request, nonce, entropy);
    case CallPrepareRefund(request) => PrepareRefundKeeps(config, state, request);
    case CallRestorePair(request, result) => RestorePairKeeps(config, state, request, result);
    case CallRestoreClaim(request, result) => RestoreClaimKeeps(config, state, request, result);
    case CallRestoreRefund(_, _) =>
  }

  /**
   Under any order of prepare and restore calls every slot is write-once, the funding nonce is the
   initialization nonce plus one without overflow, and the claim nonce differs from both.
   */
  lemma {:induction false} PlannerRunsAreSafe(config: Config, state: PlannerState, calls: seq<Call>)
    requires PlannerInv(config, state)
    ensures PlannerInv(config, AfterCalls(config, state, calls))
    ensures NoncesApart(config, AfterCalls(config, state, calls))
    ensures Grows(state, AfterCalls(config, state, calls))
    decreases |calls|
  {
    if calls != [] {
      CallKeeps(config, state, calls[0]);
      PlannerRunsAreSafe(config, AfterCall(config, state, calls[0]), calls[1..]);
    }
  }

  /** A request for one of the three slots, and what the slot's preparation answers. */
  datatype SlotRequest =
    | PairRequest(pair: EscrowRequest) | RevealRequest(claim: ClaimRequest) | ReturnRequest(back: RefundRequest)
  datatype SlotResult =
    | PairResult(pair: EscrowResult) | RevealResult(claim: ClaimResult) | ReturnResult(back: RefundResult)

  function PrepareSlot(config: Config, state: PlannerState, request: SlotRequest, nonce: Option<u128>,
                       entropy: (nat, nat))
    : Planned<SlotResult>
  {
    match request
    case PairRequest(r) =>
      var p := PrepareEscrow(config, state, r, nonce, entropy);
      Planned(p.state, if p.result.Ok? then Ok(PairResult(p.result.value)) else Err(p.result.error))
    case RevealRequest(r) =>
      var p := PrepareClaim(config, state, r, nonce, entropy.0);
      Planned(p.state, if p.result.Ok? then Ok(RevealResult(p.result.value)) else Err(p.result.error))
    case ReturnRequest(r) =>
      var p := PrepareRefund(config, state, r);
      Planned(p.state, if p.result.Ok? then Ok(ReturnResult(p.result.value)) else Err(p.result.error))
  }

  /** A slot is filled with this request and this result. */
  predicate HoldsSlot(state: PlannerState, request: SlotRequest, result: SlotResult) {
    match request
    case PairRequest(r) => result.PairResult? && state.native == Some(ActivePair(r, result.pair))
    case RevealRequest(r) => result.RevealResult? && state.claim == Some(RememberClaim(r, result.claim))
    case ReturnRequest(r) => result.ReturnResult? && state.refund == Some(ActiveRefund(r, result.back))
  }

  lemma PreparedSlotIsHeld(config: Config, state: PlannerState, request: SlotRequest, nonce: Option<u128>,
                           entropy: (nat, nat))
    requires PlannerInv(config, state)
    ensures var p := PrepareSlot(config, state, request, nonce, entropy);
            PlannerInv(config, p.state) && (p.result.Ok? ==> HoldsSlot(p.state, request, p.result.value))
  {
    match request
    case PairRequest(r) => PrepareEscrowKeeps(config, state, r, nonce, entropy);
    case RevealRequest(r) => PrepareClaimKeeps(config, state, r, nonce, entropy.0);
    case ReturnRequest(r) => PrepareRefundKeeps(config, state, r);
  }

  /** A held preparation is answered from its slot, whatever nonce and randomness are at hand. */
  lemma HeldSlotAnswersItself(config: Config, state: PlannerState, request: SlotRequest, result: SlotResult,
                              nonce: Option<u128>, entropy: (nat, nat))
    requires PlannerInv(config, state) && HoldsSlot(state, request, result)
    ensures PrepareSlot(config, state, request, nonce, entropy) == Planned(state, Ok(result))
  {
  }

  /**
   Repeating an accepted preparation of the pair, the claim or the refund, after any other calls and with
   any nonce and randomness at hand, answers the first bytes again and leaves the planner as it is.
   */
  lemma ReplayedPreparationIsByteIdentical(config: Config, state: PlannerState, request: SlotRequest,
                                           nonce: Option<u128>,
                                           entropy: (nat, nat), calls: seq<Call>, nonce': Option<u128>,
                                               entropy': (nat, nat))
    requires PlannerInv(config, state)
    requires PrepareSlot(config, state, request, nonce, entropy).result.Ok?
    ensures var first := PrepareSlot(config, state, request, nonce, entropy);
            var later := AfterCalls(config, first.state, calls);
            PrepareSlot(config, later, request, nonce', entropy') == Planned(later, first.result)
  {
    var first := PrepareSlot(config, state, request, nonce, entropy);
    PreparedSlotIsHeld(config, state, request, nonce, entropy);
    PlannerRunsAreSafe(config, first.state, calls);
    HeldSlotAnswersItself(config, AfterCalls(config, first.state, calls), request, first.result.value, nonce',
                          entropy');
  }

  // ----- The planner object -------------------------------------------------------------------

  class NativeEscrowPlanner {
    const config: Config
    var native: Option<ActivePair>
    var claim: Option<ActiveClaim>
    var refund: Option<ActiveRefund>

    function State(): PlannerState
      reads this
    {
      PlannerState(native, claim, refund)
    }

    ghost predicate Valid()
      reads this
    {
      config.Check().None? && PlannerInv(config, State())
    }

    constructor (config: Config)
      requires config.Check().None?
      ensures this.config == config && State() == EMPTY_PLANNER && Valid()
    {
      this.config := config;
      native, claim, refund := None, None, None;
    }

    method Prepare(request: EscrowRequest, nonce: Option<u128>, entropy: (nat, nat))
        returns (r: Result<EscrowResult, SidecarError>)
      requires Valid()
      modifies this`native
      ensures Valid() && Grows(old(State()), State())
      ensures Planned(State(), r) == PrepareEscrow(config, old(State()), request, nonce, entropy)
    {
      PrepareEscrowKeeps(config, State(), request, nonce, entropy);
      var invalid := ValidateEscrow(config, request);
      if invalid.Some? { return Err(invalid.value); }
      if native.Some? {
        return if native.value.request == request then Ok(native.value.result) else Err(ActivePrepare);
      }
      if nonce.None? { return Err(NonceUnavailable); }
      var first := nonce.value;
      if first == U128_MAX { return Err(NonceOverflow); }
      var conflict := PairConflict(config, State(), first);
      if conflict.Some? { return Err(conflict.value); }
      var result := EscrowResult(request.context,
                                 Sign(config.key, InitializationMessage(config.escrowProgram, request.terms, first),
                                      entropy.0),
                                 Sign(config.key, FundingMessage(config.escrowProgram, request.terms, first + 1),
                                      entropy.1));
      native := Some(ActivePair(request, result));
      return Ok(result);
    }

    method PrepareRevealingClaim(request: ClaimRequest, nonce: Option<u128>, entropy: nat)
        returns (r: Result<ClaimResult, SidecarError>)
      requires Valid()
      modifies this`claim
      ensures Valid() && Grows(old(State()), State())
      ensures Planned(State(), r) == PrepareClaim(config, old(State()), request, nonce, entropy)
    {
      PrepareClaimKeeps(config, State(), request, nonce, entropy);
      var invalid := ValidateClaim(config, request);
      if invalid.Some? { return Err(invalid.value); }
      if claim.Some? {
        return if claim.value.digest == ClaimSha(request) then Ok(claim.value.result) else Err(ActiveClaimPrepare);
      }
      if nonce.None? { return Err(NonceUnavailable); }
      var conflict := ClaimConflict(config, State(), nonce.value);
      if conflict.Some? { return Err(conflict.value); }
      var message := ClaimMessage(config.escrowProgram, request.terms, config.Signer(), nonce.value, request.preimage);
      var result := ClaimResult(request.context, Sign(config.key, message, entropy));
      claim := Some(RememberClaim(request, result));
      return Ok(result);
    }

    method PrepareNativeRefund(request: RefundRequest) returns (r: Result<RefundResult, SidecarError>)
      requires Valid()
      modifies this`refund
      ensures Valid() && Grows(old(State()), State())
      ensures Planned(State(), r) == PrepareRefund(config, old(State()), request)
    {
      PrepareRefundKeeps(config, State(), request);
      var invalid := ValidateRefund(config, request);
      if invalid.Some? { return Err(invalid.value); }
      if refund.Some? {
        return if refund.value.request == request then Ok(refund.value.result) else Err(ActiveRefundPrepare);
      }
      if request.terms.Witnessed? { return Err(ProtocolEncoding); }
      var result := RefundResult(request.context, Unsigned(RefundMessage(config.escrowProgram, request.terms.terms)));
      refund := Some(ActiveRefund(request, result));
      return Ok(result);
    }

    method RestorePrepared(request: EscrowRequest, result: EscrowResult) returns (r: Result<(), SidecarError>)
      requires Valid()
      modifies this`native
      ensures Valid() && Grows(old(State()), State())
      ensures Planned(State(), r) == RestorePair(config, old(State()), request, result)
    {
      RestorePairKeeps(config, State(), request, result);
      var checked := CheckRestoredPair(config, request, result);
      if checked.Err? { return Err(checked.error); }
      var conflict := PairConflict(config, State(), checked.value);
      if conflict.Some? { return Err(conflict.value); }
      if native.Some? {
        return if native.value == ActivePair(request, result) then Ok(()) else Err(ActivePrepare);
      }
      native := Some(ActivePair(request, result));
      return Ok(());
    }

    method RestoreRevealingClaim(request: ClaimRequest, result: ClaimResult) returns (r: Result<(), SidecarError>)
      requires Valid()
      modifies this`claim
      ensures Valid() && Grows(old(State()), State())
      ensures Planned(State(), r) == RestoreClaim(config, old(State()), request, result)
    {
      RestoreClaimKeeps(config, State(), request, result);
      var checked := CheckRestoredClaim(config, request, result);
      if checked.Err? { return Err(checked.error); }
      var conflict := ClaimConflict(config, State(), checked.value);
      if conflict.Some? { return Err(conflict.value); }
      if claim.Some? {
        return if claim.value.digest == ClaimSha(request)
               && claim.value.result == result then Ok(()) else Err(ActiveClaimPrepare);
      }
      claim := Some(RememberClaim(request, result));
      return Ok(());
    }

    method RestoreNativeRefund(request: RefundRequest, result: RefundResult) returns (r: Result<(), SidecarError>)
      requires Valid()
      modifies this`refund
      ensures Valid() && Grows(old(State()), State())
      ensures Planned(State(), r) == RestoreRefund(config, old(State()), request, result)
    {
      var invalid := CheckRestoredRefund(config, request, result);
      if invalid.Some? { return Err(invalid.value); }
      if refund.Some? {
        return if refund.value == ActiveRefund(request, result) then Ok(()) else Err(ActiveRefundPrepare);
      }
      refund := Some(ActiveRefund(request, result));
      return Ok(());
    }
  }
}
