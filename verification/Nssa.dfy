/**
 The pinned v0.1.2 transaction boundary. Hashes, signatures and byte encodings are free
 constructors: two of them are equal exactly when they were made from equal parts, which is
 the collision-freedom and canonical-encoding assumption stated once and for all.
 */
module Nssa {
  import opened Wrappers

  const U128_MAX: nat := 0xFFFF_FFFF_FFFF_FFFF_FFFF_FFFF_FFFF_FFFF

  /** Identity of the official authenticated-transfer program. */
  const AUTHENTICATED_TRANSFER: ProgramId := 0

  type RequestId = nat
  type ProgramId = nat
  type SwapId = nat
  type SigningKey = nat
  type u128 = n: nat | n <= U128_MAX

  datatype Participant = Maker | Taker

  /** An account is a public key's account or one derived from a program and seeds. */
  datatype AccountId =
    | KeyAccount(key: SigningKey)
    | MetadataPda(program: ProgramId, swapId: SwapId)
    | CustodyPda(program: ProgramId, swapId: SwapId)

  datatype SecretDigest = Sha256(preimage: nat) | UnmatchedDigest(raw: nat)

  datatype Instruction =
    | InitializeNative(swapId: SwapId, termsHash: nat, secretDigest: SecretDigest, amount: nat,
                       refundAt: nat, transferProgram: ProgramId)
    | InitializeWitnessed(swapId: SwapId, termsHash: nat, aggregateKey: nat, amount: nat,
                          refundAt: nat, transferProgram: ProgramId)
    | FundNative(swapId: SwapId)
    | ClaimNative(swapId: SwapId, preimage: nat)
    | RefundNative(swapId: SwapId)
    | OtherInstruction(raw: nat)
    | Undecodable(raw: nat)

  datatype Message = Message(program: ProgramId, accounts: seq<AccountId>, nonces: seq<u128>,
                             instruction: Instruction)

  /** A randomized signature over one message; `entropy` is the signer's fresh randomness. */
  datatype Witness = Witness(key: SigningKey, message: Message, entropy: nat)

  datatype PublicTransaction = PublicTransaction(message: Message, witnesses: seq<Witness>)

  datatype ExactBytes = Encoded(transaction: PublicTransaction) | Malformed(raw: nat)

  datatype TransactionId = HashOf(transaction: PublicTransaction) | UnmatchedId(raw: nat)

  /** A transaction as the bridge persists it: its identity and its exact bytes. */
  datatype Prepared = Prepared(id: TransactionId, bytes: ExactBytes)

  datatype Terms = Terms(
    swapId: SwapId, termsHash: nat, secretDigest: SecretDigest, amount: nat, refundAt: nat,
    depositor: Participant, depositorAccount: AccountId,
    claimant: Participant, claimantAccount: AccountId, transferProgram: ProgramId)

  datatype SidecarError =
    | WrongSidecarRole | WrongSigner | WrongDepositorRole | WrongClaimantRole
    | WrongEscrowProgram | WrongAuthenticatedTransferProgram | WrongRuntimeCompatibility
    | WrongRuntimeIdentity | ActivePrepare | ActiveClaimPrepare | ActiveRefundPrepare
    | WrongClaimPreimage | InvalidFundingTransaction | TransactionNotPrepared
    | NonceUnavailable | NodeRejected | UnknownSubmissionOutcome | NodeObservationUnavailable
    | InvalidNodeResponse | MovingTip | AmbiguousDiscovery | NonceOverflow
    | InvalidTransactionBytes | WrongTransactionId | InvalidSignature | ProtocolEncoding

  function PreparedFrom(transaction: PublicTransaction): Prepared {
    Prepared(HashOf(transaction), Encoded(transaction))
  }

  /** Signs a message with one key, as `prepare_message` does. */
  function Sign(key: SigningKey, message: Message, entropy: nat): Prepared {
    PreparedFrom(PublicTransaction(message, [Witness(key, message, entropy)]))
  }

  function Unsigned(message: Message): Prepared {
    PreparedFrom(PublicTransaction(message, []))
  }

  predicate WitnessesValid(transaction: PublicTransaction) {
    forall i :: 0 <= i < |transaction.witnesses| ==> transaction.witnesses[i].message == transaction.message
  }

  /** Decodes persisted bytes for one signer, with every check in the source's order. */
  function DecodePrepared(prepared: Prepared, signer: AccountId): (r: Result<PublicTransaction, SidecarError>)
    ensures r.Ok? ==> prepared == PreparedFrom(r.value) && |r.value.message.nonces| == 1
                      && |r.value.witnesses| == 1 && signer == KeyAccount(r.value.witnesses[0].key)
                      && r.value.witnesses[0].message == r.value.message
  {
    if prepared.bytes.Malformed? then Err(InvalidTransactionBytes)
    else
      var transaction := prepared.bytes.transaction;
      if prepared.id != HashOf(transaction) then Err(WrongTransactionId)
      else if |transaction.message.nonces| != |transaction.witnesses| || |transaction.witnesses| == 0
              || !WitnessesValid(transaction) then Err(InvalidSignature)
      else if |transaction.witnesses| != 1 || KeyAccount(transaction.witnesses[0].key) != signer then Err(WrongSigner)
      else Ok(transaction)
  }

  function DecodeUnsignedRefund(prepared: Prepared, expected: Message): (r: Result<PublicTransaction, SidecarError>)
    ensures r.Ok? ==> prepared == Unsigned(expected) && r.value.message == expected && expected.nonces == []
  {
    if prepared.bytes.Malformed? then Err(InvalidTransactionBytes)
    else
      var transaction := prepared.bytes.transaction;
      if prepared.id != HashOf(transaction) || transaction.message != expected
         || transaction.message.nonces != [] || transaction.witnesses != [] || !WitnessesValid(transaction)
      then Err(InvalidTransactionBytes)
      else Ok(transaction)
  }

  function InitializationMessage(program: ProgramId, terms: Terms, nonce: u128): Message {
    Message(program,
            [MetadataPda(program, terms.swapId), CustodyPda(program, terms.swapId), terms.depositorAccount,
             terms.claimantAccount],
            [nonce],
            InitializeNative(terms.swapId, terms.termsHash, terms.secretDigest, terms.amount, terms.refundAt,
                             terms.transferProgram))
  }

  function FundingMessage(program: ProgramId, terms: Terms, nonce: u128): Message {
    Message(program,
            [MetadataPda(program, terms.swapId), CustodyPda(program, terms.swapId), terms.depositorAccount],
            [nonce], FundNative(terms.swapId))
  }

  function ClaimMessage(program: ProgramId, terms: Terms, claimant: AccountId, nonce: u128, preimage: nat): Message {
    Message(program,
            [MetadataPda(program, terms.swapId), CustodyPda(program, terms.swapId), claimant],
            [nonce], ClaimNative(terms.swapId, preimage))
  }

  function RefundMessage(program: ProgramId, terms: Terms): Message {
    Message(program,
            [MetadataPda(program, terms.swapId), CustodyPda(program, terms.swapId), terms.depositorAccount],
            [], RefundNative(terms.swapId))
  }

  /** Whatever a key signs decodes again, to the same message, for that key's account. */
  lemma SignDecodes(key: SigningKey, message: Message, entropy: nat)
    requires |message.nonces| == 1
    ensures DecodePrepared(Sign(key, message, entropy), KeyAccount(key)).Ok?
    ensures DecodePrepared(Sign(key, message, entropy), KeyAccount(key)).value.message == message
  {
    var transaction := PublicTransaction(message, [Witness(key, message, entropy)]);
    assert WitnessesValid(transaction);
  }
}
