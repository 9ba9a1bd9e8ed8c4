/**
 What each message of an escrow says, field by field: the transactions a planner holds and the ones an
 observer finds are described by these, not by the functions that build them.
 */
module Canonical {
  import opened Nssa

  /** A message to the program about one swap, on its two derived accounts and then these, with these nonces. */
  predicate Addresses(m: Message, program: ProgramId, swapId: SwapId, others: nat, nonces: seq<u128>) {
    && m.program == program && m.nonces == nonces
    && |m.accounts| == 2 + others
    && m.accounts[0] == MetadataPda(program, swapId) && m.accounts[1] == CustodyPda(program, swapId)
  }

  /** Locks the terms' amount until the terms' refund time, under the terms' secret. */
  predicate IsInitialization(m: Message, program: ProgramId, terms: Terms, nonce: u128) {
    && Addresses(m, program, terms.swapId, 2, [nonce])
    && m.accounts[2] == terms.depositorAccount && m.accounts[3] == terms.claimantAccount
    && m.instruction.InitializeNative?
    && m.instruction.swapId == terms.swapId
    && m.instruction.termsHash == terms.termsHash
    && m.instruction.secretDigest == terms.secretDigest
    && m.instruction.amount == terms.amount
    && m.instruction.refundAt == terms.refundAt
    && m.instruction.transferProgram == terms.transferProgram
  }

  predicate IsFunding(m: Message, program: ProgramId, terms: Terms, nonce: u128) {
    && Addresses(m, program, terms.swapId, 1, [nonce]) && m.accounts[2] == terms.depositorAccount
    && m.instruction.FundNative? && m.instruction.swapId == terms.swapId
  }

  predicate IsClaim(m: Message, program: ProgramId, terms: Terms, nonce: u128, preimage: nat) {
    && Addresses(m, program, terms.swapId, 1, [nonce]) && m.accounts[2] == terms.claimantAccount
    && m.instruction.ClaimNative? && m.instruction.swapId == terms.swapId && m.instruction.preimage == preimage
  }

  predicate IsRefund(m: Message, program: ProgramId, terms: Terms) {
    && Addresses(m, program, terms.swapId, 1, []) && m.accounts[2] == terms.depositorAccount
    && m.instruction.RefundNative? && m.instruction.swapId == terms.swapId
  }

  /** The messages that are built for terms are exactly the ones that say this. */
  lemma PairMessagesSay(m: Message, program: ProgramId, terms: Terms, nonce: u128)
    ensures m == InitializationMessage(program, terms, nonce) <==> IsInitialization(m, program, terms, nonce)
    ensures m == FundingMessage(program, terms, nonce) <==> IsFunding(m, program, terms, nonce)
  {
    assert IsInitialization(m, program, terms, nonce) ==>
        m.accounts == InitializationMessage(program, terms, nonce).accounts;
    assert IsFunding(m, program, terms, nonce) ==> m.accounts == FundingMessage(program, terms, nonce).accounts;
  }

  lemma ClaimMessageSays(m: Message, program: ProgramId, terms: Terms, nonce: u128, preimage: nat)
    ensures m == ClaimMessage(program, terms, terms.claimantAccount, nonce, preimage) <==>
            IsClaim(m, program, terms, nonce, preimage)
  {
    assert IsClaim(m, program, terms, nonce, preimage) ==>
        m.accounts == ClaimMessage(program, terms, terms.claimantAccount, nonce, preimage).accounts;
  }

  lemma RefundMessageSays(m: Message, program: ProgramId, terms: Terms)
    ensures m == RefundMessage(program, terms) <==> IsRefund(m, program, terms)
  {
    assert IsRefund(m, program, terms) ==> m.accounts == RefundMessage(program, terms).accounts;
  }

  /** One key of an account signed exactly this message, and nothing else is attached. */
  ghost predicate SignedBy(public: PublicTransaction, message: Message, account: AccountId) {
    exists key, entropy ::
        account == KeyAccount(key) && public == PublicTransaction(message, [Witness(key, message, entropy)])
  }
}
