/**
 What the planner answers and what it then holds, in terms of the request alone: when a preparation succeeds,
 what the prepared transactions say, and which nonces they take.
 */
module PlannerTheorems {
  import opened Wrappers
  import opened Nssa
  import opened Planner
  import opened Canonical

  /** A sidecar whose runtime describes it. */
  predicate Configured(config: Config) {
    config.runtime == Runtime(config.role, true, KeyAccount(config.key), config.escrowProgram)
  }

  lemma CheckMeans(config: Config)
    ensures config.Check().None? <==> Configured(config)
  {
  }

  // ----- Which requests may be prepared ---------------------------------------------------------------

  predicate MayPreparePair(config: Config, request: EscrowRequest) {
    var terms := request.terms;
    && request.runtime == config.runtime && request.context.role == config.role
    && terms.depositor == config.role && terms.depositorAccount == KeyAccount(config.key)
    && terms.transferProgram == AUTHENTICATED_TRANSFER
  }

  predicate MayPrepareClaim(config: Config, request: ClaimRequest) {
    var terms := request.terms;
    && request.runtime == config.runtime && request.context.role == config.role
    && terms.claimant == config.role && terms.claimantAccount == KeyAccount(config.key)
    && terms.transferProgram == AUTHENTICATED_TRANSFER
    && request.fundingId != 0 && terms.secretDigest == Sha256(request.preimage)
  }

  predicate MayPrepareRefund(config: Config, request: RefundRequest) {
    var terms := request.terms.terms;
    && request.runtime == config.runtime && request.context.role == config.role && request.terms.Hashlock?
    && terms.depositor == config.role && terms.depositorAccount == KeyAccount(config.key)
    && terms.transferProgram == AUTHENTICATED_TRANSFER
  }

  // ----- What is held ---------------------------------------------------------------------------------

  function MessageOf(prepared: Prepared): Message
    requires prepared.bytes.Encoded?
  {
    prepared.bytes.transaction.message
  }

  /** The bytes and identity of a transaction that one key signed. */
  ghost predicate SignedWith(prepared: Prepared, key: SigningKey) {
    && prepared.bytes.Encoded? && prepared.id == HashOf(prepared.bytes.transaction)
    && SignedBy(prepared.bytes.transaction, MessageOf(prepared), KeyAccount(key))
  }

  /** A held pair initializes and funds exactly what was asked for, signed by the sidecar, at consecutive nonces. */
  lemma HeldPairSays(config: Config, state: PlannerState)
    requires PlannerInv(config, state) && state.native.Some?
    ensures var ActivePair(request, result) := state.native.value;
            && result.context == request.context && MayPreparePair(config, request)
            && SignedWith(result.initialization, config.key) && SignedWith(result.funding, config.key)
            && |MessageOf(result.initialization).nonces| == 1
            && var nonce := MessageOf(result.initialization).nonces[0];
               && nonce < U128_MAX
               && IsInitialization(MessageOf(result.initialization), config.escrowProgram, request.terms, nonce)
               && IsFunding(MessageOf(result.funding), config.escrowProgram, request.terms, nonce + 1)
  {
    var ActivePair(request, result) := state.native.value;
    var i, f := result.initialization.bytes.transaction, result.funding.bytes.transaction;
    var nonce := i.message.nonces[0];
    PairMessagesSay(i.message, config.escrowProgram, request.terms, nonce);
    PairMessagesSay(f.message, config.escrowProgram, request.terms, nonce + 1);
    SoleWitnessSigned(i, config.key);
    SoleWitnessSigned(f, config.key);
  }

  lemma SoleWitnessSigned(public: PublicTransaction, key: SigningKey)
    requires |public.witnesses| == 1 && public.witnesses[0].key == key
             && public.witnesses[0].message == public.message
    ensures SignedBy(public, public.message, KeyAccount(key))
  {
    var entropy := public.witnesses[0].entropy;
    assert public == PublicTransaction(public.message, [Witness(key, public.message, entropy)]);
  }

  /** A held claim claims what was asked for, with the preimage of the terms' secret, signed by the sidecar. */
  lemma HeldClaimSays(config: Config, state: PlannerState)
    requires PlannerInv(config, state) && state.claim.Some?
    ensures var held := state.claim.value;
            && held.result.context == held.digest.request.context && MayPrepareClaim(config, held.digest.request)
            && held.terms == held.digest.request.terms && held.fundingId == held.digest.request.fundingId
            && held.preimage == held.digest.request.preimage && held.terms.secretDigest == Sha256(held.preimage)
            && SignedWith(held.result.claim, config.key)
            && |MessageOf(held.result.claim).nonces| == 1
            && IsClaim(MessageOf(held.result.claim), config.escrowProgram, held.terms,
                      MessageOf(held.result.claim).nonces[0], held.preimage)
  {
    var held := state.claim.value;
    var public := held.result.claim.bytes.transaction;
    ClaimMessageSays(public.message, config.escrowProgram, held.terms, public.message.nonces[0], held.preimage);
    SoleWitnessSigned(public, config.key);
  }

  /** A held refund returns what was asked for, and carries no nonce and no signature. */
  lemma HeldRefundSays(config: Config, state: PlannerState)
    requires PlannerInv(config, state) && state.refund.Some?
    ensures var ActiveRefund(request, result) := state.refund.value;
            && result.context == request.context && MayPrepareRefund(config, request)
            && result.refund.bytes.Encoded? && result.refund.id == HashOf(result.refund.bytes.transaction)
            && result.refund.bytes.transaction.witnesses == []
            && IsRefund(MessageOf(result.refund), config.escrowProgram, request.terms.terms)
  {
    var ActiveRefund(request, result) := state.refund.value;
    RefundMessageSays(MessageOf(result.refund), config.escrowProgram, request.terms.terms);
  }

  // ----- Which nonces are taken -----------------------------------------------------------------------

  function NoncesOf(prepared: Prepared): seq<u128> {
    if prepared.bytes.Encoded? then MessageOf(prepared).nonces else []
  }

  /** No held transaction has this nonce. */
  predicate NonceFree(state: PlannerState, nonce: u128) {
    forall held :: held in Held(state) ==> nonce !in NoncesOf(held)
  }

  /** Two held transactions never share a nonce. */
  lemma HeldNoncesDiffer(config: Config, state: PlannerState, a: Prepared, b: Prepared, nonce: u128)
    requires PlannerInv(config, state) && a in Held(state) && b in Held(state)
             && nonce in NoncesOf(a) && nonce in NoncesOf(b)
    ensures a == b
  {
    if state.native.Some? { HeldPairSays(config, state); }
    if state.claim.Some? { HeldClaimSays(config, state); }
    if state.refund.Some? { HeldRefundSays(config, state); }
  }

  lemma PairConflictMeans(config: Config, state: PlannerState, nonce: u128)
    requires PlannerInv(config, state) && state.native.None? && nonce < U128_MAX
    ensures PairConflict(config, state, nonce).None? <==> NonceFree(state, nonce) && NonceFree(state, nonce + 1)
  {
    if state.claim.Some? {
      HeldClaimSays(config, state);
      assert state.claim.value.result.claim in Held(state);
    }
    if state.refund.Some? { HeldRefundSays(config, state); }
  }

  lemma ClaimConflictMeans(config: Config, state: PlannerState, nonce: u128)
    requires PlannerInv(config, state) && state.claim.None?
    ensures ClaimConflict(config, state, nonce).None? <==> NonceFree(state, nonce)
  {
    if state.native.Some? {
      HeldPairSays(config, state);
      assert state.native.value.result.initialization in Held(state)
             && state.native.value.result.funding in Held(state);
    }
    if state.refund.Some? { HeldRefundSays(config, state); }
  }

  // ----- What a preparation answers -------------------------------------------------------------------

  /** A transaction signed with this key and this randomness. */
  predicate FreshlySigned(prepared: Prepared, key: SigningKey, entropy: nat) {
    && prepared.bytes.Encoded? && prepared.id == HashOf(prepared.bytes.transaction)
    && prepared.bytes.transaction.witnesses == [Witness(key, MessageOf(prepared), entropy)]
  }

  /**
   A pair is prepared exactly for a request of this sidecar as depositor, when the slot holds that very request
   or is free and two consecutive free nonces are at hand. A new pair takes exactly those nonces.
   */
  lemma PairIsPrepared(config: Config, state: PlannerState, request: EscrowRequest, nonce: Option<u128>,
                       entropy: (nat, nat))
    requires Configured(config) && PlannerInv(config, state)
    ensures var p := PrepareEscrow(config, state, request, nonce, entropy);
            && (p.result.Ok? <==>
                  && MayPreparePair(config, request)
                  && if state.native.Some? then state.native.value.request == request
                     else nonce.Some? && nonce.value < U128_MAX && NonceFree(state, nonce.value)
                          && NonceFree(state, nonce.value + 1))
            && p.state == (if p.result.Ok? then state.(native := Some(ActivePair(request, p.result.value))) else state)
            && (p.result.Ok? && state.native.None? ==>
                  && p.result.value.context == request.context
                  && FreshlySigned(p.result.value.initialization, config.key, entropy.0)
                  && FreshlySigned(p.result.value.funding, config.key, entropy.1)
                  && IsInitialization(MessageOf(p.result.value.initialization), config.escrowProgram, request.terms,
                                 nonce.value)
                  && IsFunding(MessageOf(p.result.value.funding), config.escrowProgram, request.terms, nonce.value + 1))
  {
    var p := PrepareEscrow(config, state, request, nonce, entropy);
    if state.native.Some? {
      HeldPairSays(config, state);
    } else if nonce.Some? && nonce.value < U128_MAX {
      PairConflictMeans(config, state, nonce.value);
      if p.result.Ok? {
        PairMessagesSay(MessageOf(p.result.value.initialization), config.escrowProgram, request.terms, nonce.value);
        PairMessagesSay(MessageOf(p.result.value.funding), config.escrowProgram, request.terms, nonce.value + 1);
      }
    }
  }

  /**
   A claim is prepared exactly for a request of this sidecar as claimant with the right preimage, when the slot
   holds that very request or is free and a free nonce is at hand. A new claim takes exactly that nonce.
   */
  lemma ClaimIsPrepared(config: Config, state: PlannerState, request: ClaimRequest, nonce: Option<u128>, entropy: nat)
    requires Configured(config) && PlannerInv(config, state)
    ensures var p := PrepareClaim(config, state, request, nonce, entropy);
            && (p.result.Ok? <==>
                  && MayPrepareClaim(config, request)
                  && if state.claim.Some? then state.claim.value.digest.request == request
                     else nonce.Some? && NonceFree(state, nonce.value))
            && p.state == (if p.result.Ok?
                           then state.(claim := Some(ActiveClaim(ClaimSha(request), p.result.value, request.terms,
                                                                 request.fundingId, request.preimage)))
                           else state)
            && (p.result.Ok? && state.claim.None? ==>
                  && p.result.value.context == request.context
                  && FreshlySigned(p.result.value.claim, config.key, entropy)
                  && IsClaim(MessageOf(p.result.value.claim), config.escrowProgram, request.terms, nonce.value,
                            request.preimage))
  {
    var p := PrepareClaim(config, state, request, nonce, entropy);
    if state.claim.Some? {
      HeldClaimSays(config, state);
    } else if nonce.Some? {
      ClaimConflictMeans(config, state, nonce.value);
      if p.result.Ok? {
        ClaimMessageSays(MessageOf(p.result.value.claim), config.escrowProgram, request.terms, nonce.value,
                         request.preimage);
      }
    }
  }

  /** A refund is prepared exactly for a hashlock request of this sidecar as depositor, once. */
  lemma RefundIsPrepared(config: Config, state: PlannerState, request: RefundRequest)
    requires Configured(config) && PlannerInv(config, state)
    ensures var p := PrepareRefund(config, state, request);
            && (p.result.Ok? <==>
                  MayPrepareRefund(config, request) && (state.refund.Some? ==> state.refund.value.request == request))
            && p.state == (if p.result.Ok? then state.(refund := Some(ActiveRefund(request, p.result.value)))
                           else state)
            && (p.result.Ok? ==>
                  && p.result.value.context == request.context && p.result.value.refund.bytes.Encoded?
                  && p.result.value.refund.id == HashOf(p.result.value.refund.bytes.transaction)
                  && p.result.value.refund.bytes.transaction.witnesses == []
                  && IsRefund(MessageOf(p.result.value.refund), config.escrowProgram, request.terms.terms))
  {
    var p := PrepareRefund(config, state, request);
    if state.refund.Some? {
      HeldRefundSays(config, state);
    } else if p.result.Ok? {
      RefundMessageSays(MessageOf(p.result.value.refund), config.escrowProgram, request.terms.terms);
    }
  }

  // ----- What a restoration accepts ---------------------------------------------------------------------

  /**
   Restoring succeeds exactly when the slot is free or holds that very preparation, and the planner with it is
   one that preparations could have made.
   */
  lemma PairIsRestored(config: Config, state: PlannerState, request: EscrowRequest, result: EscrowResult)
    requires PlannerInv(config, state)
    ensures var p, with := RestorePair(config, state, request, result),
                           state.(native := Some(ActivePair(request, result)));
            && (p.result.Ok? <==> (state.native.Some? ==> state == with) && PlannerInv(config, with))
            && p.state == if p.result.Ok? then with else state
  {
  }

  lemma ClaimIsRestored(config: Config, state: PlannerState, request: ClaimRequest, result: ClaimResult)
    requires PlannerInv(config, state)
    ensures var p, with := RestoreClaim(config, state, request, result),
                           state.(claim := Some(ActiveClaim(ClaimSha(request), result, request.terms,
                                                            request.fundingId, request.preimage)));
            && (p.result.Ok? <==> (state.claim.Some? ==> state == with) && PlannerInv(config, with))
            && p.state == if p.result.Ok? then with else state
  {
  }

  lemma RefundIsRestored(config: Config, state: PlannerState, request: RefundRequest, result: RefundResult)
    requires PlannerInv(config, state)
    ensures var p, with := RestoreRefund(config, state, request, result),
                           state.(refund := Some(ActiveRefund(request, result)));
            && (p.result.Ok? <==> (state.refund.Some? ==> state == with) && PlannerInv(config, with))
            && p.state == if p.result.Ok? then with else state
  {
  }
}
