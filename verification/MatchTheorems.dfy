/**
 What the scans look for is what the planners make: each classifier finds exactly the canonical signed
 transactions.
 */
module MatchTheorems {
  import opened Wrappers
  import opened Nssa
  import opened Canonical
  import opened Planner
  import opened PlannerTheorems
  import opened Chain
  import opened Scanning
  import TipBracket
  import V2 = EscrowObservation
  import Refunds = RefundObservation

  /** What is reported of a public transaction at an index of a block. */
  function FoundHere(public: PublicTransaction, block: Block, i: nat): Found {
    Found(Prepared(HashOf(public), Encoded(public)), Position(block.hash, block.height, i), public.message.accounts)
  }

  /** A transaction with one nonce and the one signature of an account. */
  ghost predicate Signed(public: PublicTransaction, account: AccountId) {
    |public.message.nonces| == 1 && SignedBy(public, public.message, account)
  }

  /** Decoding for an account succeeds exactly for transactions with one nonce that the account alone signed. */
  lemma DecodesIffSigned(public: PublicTransaction, account: AccountId)
    ensures DecodePrepared(PreparedFrom(public), account).Ok? <==> Signed(public, account)
  {
    if DecodePrepared(PreparedFrom(public), account).Ok? {
      var signature := public.witnesses[0];
      assert public == PublicTransaction(public.message, [Witness(signature.key, public.message, signature.entropy)]);
    } else if Signed(public, account) {
      var key, entropy :| account == KeyAccount(key) && public
          == PublicTransaction(public.message, [Witness(key, public.message, entropy)]);
      SignDecodes(key, public.message, entropy);
    }
  }

  // ----- v0.1.2 --------------------------------------------------------------------------------------

  /**
   Discovery of a v0.1.2 pair finds exactly the initialization and the funding of the terms, at any one nonce,
   signed by the depositor; nothing else is found, and a signature fault is an error.
   */
  lemma DiscoveredPairMeans(program: ProgramId, terms: Terms, block: Block, i: nat, public: PublicTransaction)
    requires i < |block.transactions| && block.transactions[i] == Public(public)
    ensures var c := TipBracket.ClassifyPair(program, terms, None, block, i);
            var signed := Signed(public, terms.depositorAccount);
            && (c.First? <==> signed && IsInitialization(public.message, program, terms, public.message.nonces[0]))
            && (c.Second? <==> signed && IsFunding(public.message, program, terms, public.message.nonces[0]))
            && (c.First? ==> c.first == FoundHere(public, block, i))
            && (c.Second? ==> c.second == FoundHere(public, block, i))
            && (c.Fail? ==> !signed && c.error == InvalidObservation)
  {
    DecodesIffSigned(public, terms.depositorAccount);
    if |public.message.nonces| == 1 {
      PairMessagesSay(public.message, program, terms, public.message.nonces[0]);
    }
  }

  /**
   An exact v0.1.2 target finds exactly its own two transactions, each as its own kind, if they are what their
   owner would sign; a listed transaction is never passed over.
   */
  lemma ExactPairMeans(program: ProgramId, terms: Terms, expected: (Prepared, Prepared), block: Block, i: nat,
                       public: PublicTransaction)
    requires i < |block.transactions| && block.transactions[i] == Public(public) && expected.0.id != expected.1.id
    ensures var c := TipBracket.ClassifyPair(program, terms, Some(expected), block, i);
            var signed := Signed(public, terms.depositorAccount);
            && (c.First? <==> signed && PreparedFrom(public) == expected.0
                              && IsInitialization(public.message, program, terms, public.message.nonces[0]))
            && (c.Second? <==> signed && PreparedFrom(public) == expected.1
                               && IsFunding(public.message, program, terms, public.message.nonces[0]))
            && (c.First? ==> c.first == FoundHere(public, block, i))
            && (c.Second? ==> c.second == FoundHere(public, block, i))
            && (c == Skip <==> HashOf(public) != expected.0.id && HashOf(public) != expected.1.id)
  {
    DecodesIffSigned(public, terms.depositorAccount);
    if |public.message.nonces| == 1 {
      PairMessagesSay(public.message, program, terms, public.message.nonces[0]);
    }
  }

  /**
   Whatever pair a planner of any history holds, its exact and its counterparty's discovering observer both
   find it when a block includes it: the initialization as the first, the funding as the second.
   */
  lemma HeldPairIsFound(config: Config, planner: PlannerState, block: Block, i: nat, public: PublicTransaction)
    requires PlannerInv(config, planner) && planner.native.Some?
    requires i < |block.transactions| && block.transactions[i] == Public(public)
    ensures var pair := planner.native.value;
            var exact := TipBracket.ClassifyPair(config.escrowProgram, pair.request.terms,
                                                 Some((pair.result.initialization, pair.result.funding)), block, i);
            var discovered := TipBracket.ClassifyPair(config.escrowProgram, pair.request.terms, None, block, i);
            && (PreparedFrom(public) == pair.result.initialization ==>
                exact == discovered == First(FoundHere(public, block, i)))
            && (PreparedFrom(public) == pair.result.funding ==>
                exact == discovered == Second(FoundHere(public, block, i)))
  {
    var pair := planner.native.value;
    HeldPairSays(config, planner);
    ExactPairMeans(config.escrowProgram, pair.request.terms, (pair.result.initialization, pair.result.funding), block,
                   i, public);
    DiscoveredPairMeans(config.escrowProgram, pair.request.terms, block, i, public);
  }

  /** Discovery of a v0.1.2 claim finds exactly the claims of the terms' secret that the claimant signed. */
  lemma DiscoveredClaimMeans(program: ProgramId, terms: Terms, block: Block, i: nat, public: PublicTransaction)
    requires i < |block.transactions| && block.transactions[i] == Public(public)
    ensures var c := TipBracket.ClassifyClaim(program, terms, block, i);
            && (c.First? <==>
                  && Signed(public, terms.claimantAccount) && public.message.instruction.ClaimNative?
                  && Sha256(public.message.instruction.preimage) == terms.secretDigest
                  && IsClaim(public.message, program, terms, public.message.nonces[0],
                             public.message.instruction.preimage))
            && (c.First? ==> c.first == FoundHere(public, block, i)) && !c.Second?
  {
    DecodesIffSigned(public, terms.claimantAccount);
    if |public.message.nonces| == 1 && public.message.instruction.ClaimNative? {
      ClaimMessageSays(public.message, program, terms, public.message.nonces[0], public.message.instruction.preimage);
    }
  }

  /** The exact scan of a held claim finds it, nothing else, and agrees with what the counterparty discovers. */
  lemma ExactClaimMeans(config: Config, planner: PlannerState, block: Block, i: nat, public: PublicTransaction)
    requires PlannerInv(config, planner) && planner.claim.Some? && i < |block.transactions|
             && block.transactions[i] == Public(public)
    ensures var c := TipBracket.ClassifyExact(planner.claim.value.result.claim, block, i);
            && (c.First? <==> PreparedFrom(public) == planner.claim.value.result.claim)
            && (c.First? ==> c == First(FoundHere(public, block, i)))
            && (c.First? ==> c == TipBracket.ClassifyClaim(config.escrowProgram, planner.claim.value.terms, block, i))
            && (c.First? || c == Skip)
  {
    HeldClaimSays(config, planner);
    DiscoveredClaimMeans(config.escrowProgram, planner.claim.value.terms, block, i, public);
  }

  /** A planner's held claim is found by the depositor, and its held refund by either side. */
  lemma HeldClaimAndRefundAreFound(config: Config, planner: PlannerState, block: Block, i: nat,
                                   public: PublicTransaction)
    requires PlannerInv(config, planner) && i < |block.transactions| && block.transactions[i] == Public(public)
    ensures planner.claim.Some? && PreparedFrom(public) == planner.claim.value.result.claim ==>
              TipBracket.ClassifyClaim(config.escrowProgram, planner.claim.value.terms, block, i)
                  == First(FoundHere(public, block, i))
    ensures planner.refund.Some? && PreparedFrom(public) == planner.refund.value.result.refund ==>
              var terms := planner.refund.value.request.terms.terms;
              && TipBracket.ClassifyRefund(config.escrowProgram, terms, None, block, i)
                  == First(FoundHere(public, block, i))
              && TipBracket.ClassifyRefund(config.escrowProgram, terms, Some(planner.refund.value.result.refund), block,
                                           i)
                 == First(FoundHere(public, block, i))
  {
    if planner.claim.Some? { ExactClaimMeans(config, planner, block, i, public); }
    if planner.refund.Some? {
      HeldRefundSays(config, planner);
      var ActiveRefund(request, result) := planner.refund.value;
      RefundMatchMeans(config.escrowProgram, request.terms.terms, None, block, i, public);
      RefundMatchMeans(config.escrowProgram, request.terms.terms, Some(result.refund), block, i, public);
    }
  }

  /** The canonical refund of terms: its message, no nonce and no signature. */
  predicate CanonicalRefund(public: PublicTransaction, program: ProgramId, terms: Terms) {
    IsRefund(public.message, program, terms) && public.witnesses == []
  }

  /** A refund, discovered or exact, is the one canonical unsigned message, and if exact the expected bytes. */
  lemma RefundMatchMeans(program: ProgramId, terms: Terms, expected: Option<Prepared>, block: Block, i: nat,
                         public: PublicTransaction)
    requires i < |block.transactions| && block.transactions[i] == Public(public)
    ensures var c := TipBracket.ClassifyRefund(program, terms, expected, block, i);
            && (c.First? <==> CanonicalRefund(public, program, terms)
                              && (expected.Some? ==> PreparedFrom(public) == expected.value))
            && (c.First? ==> c.first == FoundHere(public, block, i)) && !c.Second?
            && (expected.Some? ==> (c == Skip <==> HashOf(public) != expected.value.id))
  {
    RefundMessageSays(public.message, program, terms);
    assert public.witnesses == [] ==> WitnessesValid(public);
  }

  // ----- v0.2 ----------------------------------------------------------------------------------------

  /** Locks the terms' amount under a secret, or under the witness of an aggregate key. */
  predicate IsV2Initialization(m: Message, program: ProgramId, escrow: V2.EscrowTerms, nonce: u128) {
    var terms := escrow.terms;
    match escrow
    case Hashlocked(_) => IsInitialization(m, program, terms, nonce)
    case Witnessed(_, aggregateKey, authority) =>
      && Addresses(m, program, terms.swapId, 3, [nonce]) && m.accounts[2] == terms.depositorAccount
      && m.accounts[3] == terms.claimantAccount && m.accounts[4] == authority
      && m.instruction.InitializeWitnessed?
      && m.instruction.swapId == terms.swapId
      && m.instruction.termsHash == terms.termsHash
      && m.instruction.aggregateKey == aggregateKey
      && m.instruction.amount == terms.amount
      && m.instruction.refundAt == terms.refundAt
      && m.instruction.transferProgram == terms.transferProgram
  }

  /** What the observer compares, instruction and accounts, says this together with the program and one nonce. */
  lemma V2PairSays(m: Message, program: ProgramId, escrow: V2.EscrowTerms)
    requires m.program == program && |m.nonces| == 1
    ensures m.instruction == escrow.Initialization() && m.accounts == escrow.Accounts(program, true) <==>
            IsV2Initialization(m, program, escrow, m.nonces[0])
    ensures m.instruction == FundNative(escrow.terms.swapId) && m.accounts == escrow.Accounts(program, false) <==>
            IsFunding(m, program, escrow.terms, m.nonces[0])
  {
    assert m.nonces == [m.nonces[0]];
    assert IsV2Initialization(m, program, escrow, m.nonces[0]) ==> m.accounts == escrow.Accounts(program, true);
    assert IsFunding(m, program, escrow.terms, m.nonces[0]) ==> m.accounts == escrow.Accounts(program, false);
  }

  /** An instruction that initializes these terms or funds their swap. */
  predicate AboutEscrow(i: Instruction, escrow: V2.EscrowTerms) {
    var terms := escrow.terms;
    || (i.FundNative? && i.swapId == terms.swapId)
    || (escrow.Hashlocked? && i == InitializeNative(terms.swapId, terms.termsHash, terms.secretDigest, terms.amount,
                                                    terms.refundAt, terms.transferProgram))
    || (escrow.Witnessed? && i == InitializeWitnessed(terms.swapId, terms.termsHash, escrow.aggregateKey, terms.amount,
                                                      terms.refundAt, terms.transferProgram))
  }

  /**
   A v0.2 pair, hashlocked or witnessed. Discovery finds exactly the initialization and the funding of the terms, at
   any one nonce, signed by the depositor. An exact target finds exactly its own two transactions among them, each
   as its own kind, and passes over no listed transaction of the program. A fault says what it is.
   */
  lemma V2PairMeans(program: ProgramId, escrow: V2.EscrowTerms, expected: Option<V2.Expected>, block: Block, i: nat,
                    public: PublicTransaction)
    requires i < |block.transactions| && block.transactions[i] == Public(public)
    ensures var c := V2.ClassifyPair(program, escrow, expected, block, i);
            var signed := Signed(public, escrow.terms.depositorAccount);
            && (c.First? <==>
                  && signed && IsV2Initialization(public.message, program, escrow, public.message.nonces[0])
                  && (expected.Some? ==> PreparedFrom(public) == expected.value.initialization))
            && (c.Second? <==>
                  && signed && IsFunding(public.message, program, escrow.terms, public.message.nonces[0])
                  && (expected.Some? ==> PreparedFrom(public) == expected.value.funding))
            && (c.First? ==> c.first == FoundHere(public, block, i))
            && (c.Second? ==> c.second == FoundHere(public, block, i))
            && (expected.Some? ==>
                  (c == Skip <==> public.message.program != program
                                  || (HashOf(public) != expected.value.initialization.id
                                      && HashOf(public) != expected.value.funding.id)))
            && (c.Fail? ==>
                  c.error == if public.message.instruction.Undecodable?
                             then (if expected.Some? then InvalidObservation else Unavailable)
                             else if AboutEscrow(public.message.instruction, escrow) && !signed then PlannerRefused
                             else InvalidObservation)
  {
    DecodesIffSigned(public, escrow.terms.depositorAccount);
    if |public.message.nonces| == 1 && public.message.program == program {
      V2PairSays(public.message, program, escrow);
    }
  }

  /**
   A v0.2 claim. Discovery finds exactly the claims of the terms' secret that the claimant signed. An exact target
   finds exactly its own transaction among them, with the preimage its owner holds, and passes over it never.
   */
  lemma V2ClaimMeans(program: ProgramId, terms: Terms, expected: Option<(Prepared, nat)>, block: Block, i: nat,
                     public: PublicTransaction)
    requires i < |block.transactions| && block.transactions[i] == Public(public)
    ensures var c := V2.ClassifyClaim(program, terms, expected, block, i);
            && (c.First? <==>
                  && Signed(public, terms.claimantAccount) && public.message.instruction.ClaimNative?
                  && Sha256(public.message.instruction.preimage) == terms.secretDigest
                  && IsClaim(public.message, program, terms, public.message.nonces[0],
                             public.message.instruction.preimage)
                  && (expected.Some? ==> PreparedFrom(public) == expected.value.0
                                         && public.message.instruction.preimage == expected.value.1))
            && (c.First? ==> c.first == FoundHere(public, block, i)) && !c.Second?
            && (expected.Some? ==>
                  (c == Skip <==> public.message.program != program || HashOf(public) != expected.value.0.id))
            && (c.Fail? && public.message.instruction.Undecodable? ==>
                  c.error == if expected.Some? then InvalidObservation else Unavailable)
            && (c.Fail? && expected.None? && !public.message.instruction.Undecodable? ==>
                  c.error == if Signed(public, terms.claimantAccount) then InvalidObservation else PlannerRefused)
  {
    DecodesIffSigned(public, terms.claimantAccount);
    if |public.message.nonces| == 1 && public.message.instruction.ClaimNative? {
      ClaimMessageSays(public.message, program, terms, public.message.nonces[0], public.message.instruction.preimage);
      assert public.message.nonces == [public.message.nonces[0]];
    }
  }

  /** The canonical unsigned refund is found and validated wherever it is included, no earlier than the refund time. */
  lemma CanonicalRefundIsFound(q: Refunds.Query, block: Block, i: nat, public: PublicTransaction)
    requires i < |block.transactions| && block.transactions[i] == Public(public)
             && CanonicalRefund(public, q.program, q.terms)
    requires q.target.Exact? ==> q.owned == Some(PreparedFrom(public))
    ensures var found := Refunds.FoundRefund(Position(block.hash, block.height, i), block.timestamp, public);
            (q.target.Exact? ==> q.labelled(public).hash == HashOf(public)) ==>
               && Refunds.Classify(q, block, i) == First(found)
               && (Refunds.ValidateRefund(q, found).Ok? <==>
                     block.timestamp >= q.terms.refundAt && q.labelled(public) == Refunds.Label(HashOf(public), false))
               && (Refunds.ValidateRefund(q, found).Ok? ==>
                     Refunds.ValidateRefund(q, found).value == FoundHere(public, block, i))
  {
    RefundMessageSays(public.message, q.program, q.terms);
  }

  /** A private transaction is never found: it fails an exact v0.1.2 target that lists it and is skipped elsewhere. */
  lemma PrivateIsNeverFound(program: ProgramId, escrow: V2.EscrowTerms, pair: Option<(Prepared, Prepared)>,
                            one: Option<Prepared>, block: Block, i: nat, hash: TransactionId)
    requires i < |block.transactions| && block.transactions[i] == Private(hash)
    ensures TipBracket.ClassifyPair(program, escrow.terms, pair, block, i)
         == if pair.Some? && hash in {pair.value.0.id, pair.value.1.id} then Fail(InvalidObservation) else Skip
    ensures TipBracket.ClassifyRefund(program, escrow.terms, one, block, i)
         == if one.Some? && hash == one.value.id then Fail(InvalidObservation) else Skip
    ensures TipBracket.ClassifyClaim(program, escrow.terms, block, i) == Skip
    ensures one.Some? ==>
              TipBracket.ClassifyExact(one.value, block, i)
                  == if hash == one.value.id then Fail(InvalidObservation) else Skip
    ensures forall expected :: V2.ClassifyPair(program, escrow, expected, block, i) == Skip
    ensures forall expected :: V2.ClassifyClaim(program, escrow.terms, expected, block, i) == Skip
  {
  }

  // ----- What the verdicts mean ------------------------------------------------------------------------

  /** The public transaction at an index of the block at an offset of the chain, inside the window. */
  predicate Stands(genesis: nat, window: Window, chain: Blocks, i: nat, j: nat, public: PublicTransaction) {
    && i < |chain| && window.0 <= genesis + i < window.0 + window.1
    && j < |chain[i].transactions| && chain[i].transactions[j] == Public(public)
  }

  /** What a v0.2 observer of a pair looks for as its first transaction, and as its second. */
  ghost predicate WantedFirst(program: ProgramId, escrow: V2.EscrowTerms, expected: Option<V2.Expected>,
                              public: PublicTransaction) {
    && Signed(public, escrow.terms.depositorAccount)
    && IsV2Initialization(public.message, program, escrow, public.message.nonces[0])
    && (expected.Some? ==> PreparedFrom(public) == expected.value.initialization)
  }

  ghost predicate WantedSecond(program: ProgramId, escrow: V2.EscrowTerms, expected: Option<V2.Expected>,
                               public: PublicTransaction) {
    && Signed(public, escrow.terms.depositorAccount)
    && IsFunding(public.message, program, escrow.terms, public.message.nonces[0])
    && (expected.Some? ==> PreparedFrom(public) == expected.value.funding)
  }

  lemma V2PairOccurs(program: ProgramId, escrow: V2.EscrowTerms, expected: Option<V2.Expected>, window: Window,
                     pinned: Blocks, found: Found)
    ensures Occurs(V2.GENESIS, V2.PairClassifier(program, escrow, expected), window, pinned, First(found)) <==>
            exists i: nat, j: nat, public ::
              && Stands(V2.GENESIS, window, pinned, i, j, public) && found == FoundHere(public, pinned[i], j)
              && WantedFirst(program, escrow, expected, public)
    ensures Occurs(V2.GENESIS, V2.PairClassifier(program, escrow, expected), window, pinned, Second(found)) <==>
            exists i: nat, j: nat, public ::
              && Stands(V2.GENESIS, window, pinned, i, j, public) && found == FoundHere(public, pinned[i], j)
              && WantedSecond(program, escrow, expected, public)
  {
    var classify := V2.PairClassifier(program, escrow, expected);
    forall i: nat, j: nat | i < |pinned| && j < |pinned[i].transactions| && classify(pinned[i], j) != Skip
      ensures pinned[i].transactions[j].Public?
      ensures classify(pinned[i], j) == First(found) ==>
                && found == FoundHere(pinned[i].transactions[j].public, pinned[i], j)
                && WantedFirst(program, escrow, expected, pinned[i].transactions[j].public)
      ensures classify(pinned[i], j) == Second(found) ==>
                && found == FoundHere(pinned[i].transactions[j].public, pinned[i], j)
                && WantedSecond(program, escrow, expected, pinned[i].transactions[j].public)
    {
      V2PairMeans(program, escrow, expected, pinned[i], j, pinned[i].transactions[j].public);
    }
    if Occurs(V2.GENESIS, classify, window, pinned, First(found)) {
      var i: nat, j: nat :| i < |pinned| && window.0 <= V2.GENESIS + i < window.0 + window.1
                            && j < |pinned[i].transactions| && classify(pinned[i], j) == First(found);
      assert Stands(V2.GENESIS, window, pinned, i, j, pinned[i].transactions[j].public);
    }
    if Occurs(V2.GENESIS, classify, window, pinned, Second(found)) {
      var i: nat, j: nat :| i < |pinned| && window.0 <= V2.GENESIS + i < window.0 + window.1
                            && j < |pinned[i].transactions| && classify(pinned[i], j) == Second(found);
      assert Stands(V2.GENESIS, window, pinned, i, j, pinned[i].transactions[j].public);
    }
    forall i: nat, j: nat, public | Stands(V2.GENESIS, window, pinned, i, j, public)
      ensures WantedFirst(program, escrow, expected, public) ==>
              classify(pinned[i], j) == First(FoundHere(public, pinned[i], j))
      ensures WantedSecond(program, escrow, expected, public) ==>
              classify(pinned[i], j) == Second(FoundHere(public, pinned[i], j))
    {
      V2PairMeans(program, escrow, expected, pinned[i], j, public);
    }
  }

  /**
   The verdicts of the v0.2 pair observer, discovering or exact, in terms of the chain: found is a wanted
   transaction that stands in the window, at its own position, and whatever wanted stands there is found; a missing
   one is absent exactly for a discovered window that the chain covers; a found funding comes after a found
   initialization.
   */
  lemma V2PairVerdictsMean(program: ProgramId, escrow: V2.EscrowTerms, expected: Option<V2.Expected>, window: Window,
                           pinned: Blocks, found: Found)
    requires AtomicVerdicts(V2.GENESIS, V2.PairClassifier(program, escrow, expected), expected.Some?, window,
                            pinned).Ok?
    ensures var v := AtomicVerdicts(V2.GENESIS, V2.PairClassifier(program, escrow, expected), expected.Some?, window,
                                    pinned).value;
            var missing := if expected.None? && V2.GENESIS + |pinned| >= window.0 + window.1 then Absent
                           else UnknownOrPending;
            && (v.0 == FoundAt(found) <==> exists i: nat, j: nat, public ::
                  && Stands(V2.GENESIS, window, pinned, i, j, public) && found == FoundHere(public, pinned[i], j)
                  && WantedFirst(program, escrow, expected, public))
            && (v.1 == FoundAt(found) <==> exists i: nat, j: nat, public ::
                  && Stands(V2.GENESIS, window, pinned, i, j, public) && found == FoundHere(public, pinned[i], j)
                  && WantedSecond(program, escrow, expected, public))
            && (v.0.FoundAt? || v.0 == missing) && (v.1.FoundAt? || v.1 == missing)
            && (v.0.FoundAt? && v.1.FoundAt? ==> ComesAfter(v.1.found.position, v.0.found.position))
  {
    VerdictsMean(V2.GENESIS, V2.PairClassifier(program, escrow, expected), expected.Some?, window, pinned, found);
    V2PairOccurs(program, escrow, expected, window, pinned, found);
  }
}
