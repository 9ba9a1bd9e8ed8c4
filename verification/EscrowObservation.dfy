/**
 The v0.2 observers of an escrow pair and of its revealing claim. Each pins a tip, reads a range and an
 account snapshot at later instants, and accepts any later view that extends the pinned one. Whatever
 the chain does between the reads, an accepted answer is the answer of one scan of the chain that ends
 at the pinned tip.
 */
module EscrowObservation {
  import opened Wrappers
  import opened Nssa
  import opened Chain
  import opened Scanning

  /** The first block of a v0.2 chain has height one. */
  const GENESIS: nat := 1

  datatype Expected = Expected(initialization: Prepared, funding: Prepared)

  /** Hashlock terms, or terms whose claim needs an aggregate witness. */
  datatype EscrowTerms = Hashlocked(terms: Terms) | Witnessed(terms: Terms, aggregateKey: nat, authority: AccountId) {

    function Initialization(): Instruction {
      if Hashlocked?
      then InitializeNative(terms.swapId, terms.termsHash, terms.secretDigest, terms.amount, terms.refundAt,
                            terms.transferProgram)
      else InitializeWitnessed(terms.swapId, terms.termsHash, aggregateKey, terms.amount, terms.refundAt,
                               terms.transferProgram)
    }

    /** The accounts a transaction of the pair must list, in order. */
    function Accounts(program: ProgramId, initialization: bool): seq<AccountId> {
      [MetadataPda(program, terms.swapId), CustodyPda(program, terms.swapId), terms.depositorAccount]
      + (if initialization then [terms.claimantAccount] else [])
      + (if initialization && Witnessed? then [authority] else [])
    }
  }

  // ----- One transaction ------------------------------------------------------------------------

  function FoundTransaction(public: PublicTransaction, block: Block, index: nat, signer: AccountId,
                            expected: Option<Prepared>, accounts: seq<AccountId>)
    : Result<Found, ObservationError>
  {
    var prepared := PreparedFrom(public);
    if DecodePrepared(prepared, signer).Err? then Err(PlannerRefused)
    else if expected.Some? && expected.value != prepared then Err(InvalidObservation)
    else if public.message.accounts != accounts then Err(InvalidObservation)
    else Ok(Found(prepared, Position(block.hash, block.height, index), public.message.accounts))
  }

  /** The body of the loop of `scan_pair` and `scan_witnessed_pair`, for one transaction. */
  function ClassifyPair(program: ProgramId, terms: EscrowTerms, expected: Option<Expected>, block: Block,
                        index: nat): Classified<Found> {
    if index >= |block.transactions| || block.transactions[index].Private?
        || block.transactions[index].public.message.program != program then Skip
    else
      var public := block.transactions[index].public;
      var instruction := public.message.instruction;
      if expected.Some? && expected.value.initialization.id != HashOf(public)
          && expected.value.funding.id != HashOf(public) then Skip
      else if instruction.Undecodable? then Fail(if expected.Some? then InvalidObservation else Unavailable)
      else
        var initialization := instruction == terms.Initialization();
        if initialization || instruction == FundNative(terms.terms.swapId) then
          var wanted := if expected.None? then None
                        else Some(if initialization then expected.value.initialization else expected.value.funding);
          match FoundTransaction(public, block, index, terms.terms.depositorAccount, wanted,
                                 terms.Accounts(program, initialization))
          case Err(e) => Fail(e)
          case Ok(found) => if initialization then First(found) else Second(found)
        else if expected.Some? then Fail(InvalidObservation)
        else Skip
  }

  function PairClassifier(program: ProgramId, terms: EscrowTerms, expected: Option<Expected>): Classifier<Found> {
    (block: Block, index: nat) => ClassifyPair(program, terms, expected, block, index)
  }

  /** The body of the loop of `scan_claim`, for one transaction. */
  function ClassifyClaim(program: ProgramId, terms: Terms, expected: Option<(Prepared, nat)>, block: Block,
                         index: nat): Classified<Found> {
    if index >= |block.transactions| || block.transactions[index].Private?
        || block.transactions[index].public.message.program != program then Skip
    else
      var public := block.transactions[index].public;
      var instruction := public.message.instruction;
      if expected.Some? && expected.value.0.id != HashOf(public) then Skip
      else if instruction.Undecodable? then Fail(if expected.Some? then InvalidObservation else Unavailable)
      else if !instruction.ClaimNative? || instruction.swapId != terms.swapId
          || Sha256(instruction.preimage) != terms.secretDigest
      then if expected.Some? then Fail(InvalidObservation) else Skip
      else if expected.Some? && expected.value.1 != instruction.preimage then Fail(InvalidObservation)
      else
        var accounts := [MetadataPda(program, terms.swapId), CustodyPda(program, terms.swapId), terms.claimantAccount];
        match FoundTransaction(public, block, index, terms.claimantAccount,
                               if expected.Some? then Some(expected.value.0) else None, accounts)
        case Err(e) => Fail(e)
        case Ok(found) => First(found)
  }

  function ClaimClassifier(program: ProgramId, terms: Terms, expected: Option<(Prepared, nat)>): Classifier<Found> {
    (block: Block, index: nat) => ClassifyClaim(program, terms, expected, block, index)
  }

  // ----- Range validation -----------------------------------------------------------------------

  predicate RangeOk(blocks: Blocks, start: nat, end: nat, genesisHash: BlockHash) {
    && start <= end && |blocks| == end - start + 1
    && (forall i :: 0 <= i < |blocks| ==>
        blocks[i].height == start + i && (start + i == GENESIS ==> blocks[i].hash == genesisHash))
    && (forall i :: 0 < i < |blocks| ==> blocks[i].prev == blocks[i - 1].hash)
  }

  method ValidateBlockRange(blocks: Blocks, start: nat, end: nat, genesisHash: BlockHash) returns (ok: bool)
    ensures ok <==> RangeOk(blocks, start, end, genesisHash)
  {
    if end < start || |blocks| != end - start + 1 { return false; }
    for i := 0 to |blocks|
      invariant forall k :: 0 <= k < i ==>
                blocks[k].height == start + k && (start + k == GENESIS ==> blocks[k].hash == genesisHash)
      invariant forall k :: 0 < k < i ==> blocks[k].prev == blocks[k - 1].hash
    {
      if blocks[i].height != start + i || (start + i == GENESIS && blocks[i].hash != genesisHash) { return false; }
      if i > 0 && blocks[i].prev != blocks[i - 1].hash { return false; }
    }
    return true;
  }

  // ----- Views that extend the pinned one ---------------------------------------------------------

  /** Accepts a later view that extends the pinned one; an equal view needs no further read. */
  method ConfirmExtends(genesisHash: BlockHash, h: History, fails: Outages, now: nat, tip: ChainTip, later: ChainTip)
    returns (r: Result<(), ObservationError>, end: nat)
    requires ValidHistory(GENESIS, genesisHash, h) && GENESIS <= tip.height
    ensures end >= now && (r.Err? ==> r.error == TipMoved || r.error == Unavailable)
    ensures later == tip ==> r.Ok? && end == now
    ensures later != tip && later.height <= tip.height ==> r == Err(TipMoved)
    ensures r == Err(Unavailable) ==> fails(end) || At(GENESIS, h(end), tip.height).None?
    ensures r.Ok? && later != tip ==> later.height > tip.height && StillCanonical(GENESIS, h, end, tip)
    ensures r == Err(TipMoved) ==> later.height <= tip.height || !StillCanonical(GENESIS, h, end, tip)
    ensures AppendOnly(h) && StillCanonical(GENESIS, h, now, tip) && later.height > tip.height ==> r != Err(TipMoved)
    ensures Steady(h, fails) && StillCanonical(GENESIS, h, now, tip) && later.height > tip.height ==> r.Ok?
  {
    if later == tip { return Ok(()), now; }
    if later.height <= tip.height { return Err(TipMoved), now; }
    var block, t := GetBlock(GENESIS, h, fails, now, tip.height);
    if block.Err? { return Err(block.error), t; }
    assert AppendOnly(h) ==> Extends(h, now, t);
    if block.value.None? { return Err(Unavailable), t; }
    assert Linked(GENESIS, genesisHash, h(t));
    if block.value.value.height != tip.height || block.value.value.hash != tip.hash { return Err(TipMoved), t; }
    return Ok(()), t;
  }

  /**
   Re-reads the tip and accepts it exactly when the extension bracket closes: the pinned tip was then
   canonical at a later instant. On an append-only chain it never reports a moving tip.
   */
  method ConfirmTipExtends(genesisHash: BlockHash, h: History, fails: Outages, now: nat, tip: ChainTip,
                           ghost pinnedAt: nat, ghost pinned: Blocks)
    returns (r: Result<ChainTip, ObservationError>, later: nat, ghost seen: nat, ghost s: Sighting)
    requires ValidHistory(GENESIS, genesisHash, h) && pinnedAt <= now && Pins(GENESIS, h, pinnedAt, tip, pinned)
    ensures now <= s.heightAt <= s.blockAt <= seen <= later
    ensures r.Err? ==> r.error == TipMoved || r.error == Unavailable
    ensures r.Ok? ==> StillCanonical(GENESIS, h, seen, tip)
    ensures r.Ok? ==> ExtensionCloses(GENESIS, h, tip, s, seen) && Sighted(GENESIS, h, s) == Some(r.value)
    ensures r == Err(TipMoved) ==> !ExtensionCloses(GENESIS, h, tip, s, seen)
    ensures AppendOnly(h) ==> r != Err(TipMoved)
    ensures Steady(h, fails) ==> r.Ok?
  {
    ghost var chain, heightAt;
    var tipAfter, t;
    tipAfter, t, chain, heightAt := ReadTip(GENESIS, genesisHash, h, fails, now);
    seen, s := t, Sighting(heightAt, t);
    if tipAfter.Err? { return Err(tipAfter.error), t, t, s; }
    assert Linked(GENESIS, genesisHash, h(t));
    if AppendOnly(h) {
      assert Extends(h, pinnedAt, now) && Extends(h, now, t);
      assert h(t)[tip.height - GENESIS].hash == tip.hash;
      assert tipAfter.value.height >= tip.height;
      assert tipAfter.value.height == tip.height ==> chain[|chain| - 1] == pinned[|pinned| - 1];
    }
    var confirmed, u := ConfirmExtends(genesisHash, h, fails, t, tip, tipAfter.value);
    if confirmed.Err? { return Err(confirmed.error), u, u, s; }
    if tipAfter.value == tip { return Ok(tipAfter.value), u, t, s; }
    return Ok(tipAfter.value), u, u, s;
  }

  /** How an observation closed: the later tip it saw, and the instant the pinned one was canonical again. */
  datatype Closing = Closing(after: Sighting, checkedAt: nat)

  /** The reported later tip was seen between two instants, and it closes the extension bracket of the pinned one. */
  ghost predicate ClosesWith(h: History, from: nat, upTo: nat, tip: ChainTip, tipAfter: ChainTip, c: Closing) {
    && from <= c.after.heightAt <= c.after.blockAt <= c.checkedAt <= upTo
    && Sighted(GENESIS, h, c.after) == Some(tipAfter) && ExtensionCloses(GENESIS, h, tip, c.after, c.checkedAt)
  }

  /** One validated range of one instant's chain. */
  method ReadRange(genesisHash: BlockHash, h: History, fails: Outages, now: nat, start: nat, end: nat)
    returns (r: Result<Blocks, ObservationError>, later: nat)
    ensures later >= now && (r.Err? ==> r.error == Unavailable || r.error == InvalidObservation)
    ensures r.Ok? ==> r.value == RangeOf(GENESIS, h(later), start, end) && RangeOk(r.value, start, end, genesisHash)
    ensures !fails(later) && RangeOk(RangeOf(GENESIS, h(later), start, end), start, end, genesisHash) ==> r.Ok?
  {
    r, later := GetBlockRange(GENESIS, h, fails, now, start, end);
    if r.Ok? {
      var valid := ValidateBlockRange(r.value, start, end, genesisHash);
      if !valid { r := Err(InvalidObservation); }
    }
  }

  /** Every range that a linked chain has is complete and linked. */
  lemma LinkedRangeOk(genesisHash: BlockHash, chain: Blocks, start: nat, end: nat)
    requires Linked(GENESIS, genesisHash, chain) && GENESIS <= start <= end < GENESIS + |chain|
    ensures RangeOk(RangeOf(GENESIS, chain, start, end), start, end, genesisHash)
  {
    var range := RangeOf(GENESIS, chain, start, end);
    assert forall i :: 0 <= i < |range| ==> range[i] == chain[start - GENESIS + i];
  }

  /**
   Reads the blocks of a window at its own instant. The range is not compared with the tip's hash;
   that it is the pinned chain's own range follows from the tip being canonical again afterwards.
   */
  method BlocksInWindow(genesisHash: BlockHash, h: History, fails: Outages, now: nat, window: Window)
    returns (r: Result<(ChainTip, Blocks, bool), ObservationError>, later: nat, ghost pin: Sighting,
             ghost pinned: Blocks)
    requires ValidHistory(GENESIS, genesisHash, h)
    ensures now <= pin.heightAt <= pin.blockAt <= later && r != Err(Ambiguous)
    ensures r.Ok? ==> SeesTip(GENESIS, h, now, later, pin, r.value.0, pinned)
    ensures r.Ok? ==>
            r.value.1 == WindowBlocks(GENESIS, pinned, window) && r.value.2 == (r.value.0.height >= WindowEnd(window))
    ensures AppendOnly(h) ==> r != Err(TipMoved)
    ensures Steady(h, fails) ==> r.Ok?
  {
    ghost var chain, heightAt, s;
    var tip, t;
    tip, t, chain, heightAt := ReadTip(GENESIS, genesisHash, h, fails, now);
    pin, pinned := Sighting(heightAt, t), chain;
    if tip.Err? { return Err(tip.error), t, pin, chain; }
    var end := WindowEnd(window);
    if window.0 > tip.value.height || end < GENESIS {
      return Ok((tip.value, [], tip.value.height >= end)), t, pin, chain;
    }
    var first, last := FirstHeight(GENESIS, window), LastHeight(window, tip.value.height);
    var anchor := Max(first - 1, GENESIS);
    var range, u := ReadRange(genesisHash, h, fails, t, anchor, last);
    if AppendOnly(h) {
      assert Extends(h, t, u) && Linked(GENESIS, genesisHash, h(u));
      LinkedRangeOk(genesisHash, h(u), anchor, last);
    }
    if range.Err? { return Err(range.error), u, pin, chain; }
    ghost var seen;
    var confirmed, v;
    confirmed, v, seen, s := ConfirmTipExtends(genesisHash, h, fails, u, tip.value, t, chain);
    if confirmed.Err? { return Err(confirmed.error), v, pin, chain; }
    PinnedBetween(GENESIS, genesisHash, h, t, u, seen, tip.value, chain);
    RangeIsWindow(GENESIS, chain, h(u), window, anchor, first, last);
    return Ok((tip.value, SkipAnchor(range.value, first > anchor), tip.value.height >= end)), v, pin, chain;
  }

  // ----- The account snapshot -------------------------------------------------------------------

  datatype EscrowStatus = Empty | Funded | Claimed | Refunded

  /** The metadata account: its status, and whether all its other fields match the terms. */
  datatype Metadata = Metadata(status: EscrowStatus, bound: bool)

  /** What the escrow's accounts hold after a chain has run. */
  datatype Ledger = Ledger(metadata: Blocks -> Metadata, balance: Blocks -> nat)

  datatype Snapshot = Snapshot(status: EscrowStatus, balance: nat, tip: ChainTip)

  /** A funded escrow holds the amount, any other holds nothing. */
  predicate CustodyFits(status: EscrowStatus, amount: nat, balance: nat) {
    (status == Funded ==> balance == amount) && (status != Funded ==> balance == 0)
  }

  function ExpectedBalance(status: EscrowStatus, amount: nat): nat { if status == Funded then amount else 0 }

  /** The instants of a snapshot's reads: height, block, both accounts, and the height again. */
  datatype Reads = Reads(opening: Sighting, metadataAt: nat, balanceAt: nat, closedAt: nat)

  ghost predicate InOrderBetween(from: nat, upTo: nat, at: Reads) {
    && from <= at.opening.heightAt <= at.opening.blockAt <= at.metadataAt
    && at.metadataAt <= at.balanceAt <= at.closedAt <= upTo
  }

  /** No block arrived between the two reads of the height, as far as the height tells. */
  ghost predicate HeightHeld(h: History, at: Reads) { |h(at.opening.heightAt)| == |h(at.closedAt)| }

  /**
   What a snapshot says, and where it comes from: each account from its own instant, bound to the terms and with
   the balance of its status, between two equal heights; on an append-only chain both from one chain, the one
   that ends at the reported tip.
   */
  ghost predicate SnapshotReads(h: History, ledger: Ledger, amount: nat, snapshot: Snapshot, at: Reads) {
    && HeightHeld(h, at) && Sighted(GENESIS, h, at.opening) == Some(snapshot.tip)
    && ledger.metadata(h(at.metadataAt)) == Metadata(snapshot.status, true)
    && ledger.balance(h(at.balanceAt)) == snapshot.balance && CustodyFits(snapshot.status, amount, snapshot.balance)
    && (AppendOnly(h) ==>
          && h(at.metadataAt) == h(at.balanceAt) && h(at.balanceAt) != []
          && snapshot.tip == TipOf(h(at.balanceAt)[|h(at.balanceAt)| - 1]))
  }

  /** What reads at these instants should make of the accounts: heights, then binding and balance. */
  ghost function SnapshotCheck(h: History, ledger: Ledger, amount: nat, at: Reads): Option<ObservationError> {
    var metadata, balance := ledger.metadata(h(at.metadataAt)), ledger.balance(h(at.balanceAt));
    if |h(at.opening.heightAt)| != |h(at.closedAt)| then Some(TipMoved)
    else if !metadata.bound || !CustodyFits(metadata.status, amount, balance) then Some(InvalidObservation)
    else None
  }

  /** An answer that is this error, or a success if there is none. */
  predicate Agrees<T>(r: Result<T, ObservationError>, error: Option<ObservationError>) {
    (r.Ok? <==> error.None?) && (r.Err? ==> error == Some(r.error))
  }

  method ReadSnapshot(genesisHash: BlockHash, h: History, fails: Outages, ledger: Ledger, now: nat, amount: nat)
    returns (r: Result<Snapshot, ObservationError>, later: nat, ghost at: Reads)
    requires ValidHistory(GENESIS, genesisHash, h)
    ensures InOrderBetween(now, later, at) && r != Err(Ambiguous)
    ensures r.Ok? ==> SnapshotReads(h, ledger, amount, r.value, at)
    ensures r == Err(TipMoved) ==> !HeightHeld(h, at)
    ensures Steady(h, fails) ==> Agrees(r, SnapshotCheck(h, ledger, amount, at))
  {
    assert forall t: nat :: Linked(GENESIS, genesisHash, h(t));
    var before, t := LastBlockId(GENESIS, h, fails, now);
    at := Reads(Sighting(t, t), t, t, t);
    if before.Err? { return Err(before.error), t, at; }
    var block, u := GetBlock(GENESIS, h, fails, t, before.value);
    at := Reads(Sighting(t, u), u, u, u);
    assert AppendOnly(h) ==> Extends(h, t, u);
    if block.Err? { return Err(block.error), u, at; }
    if block.value.None? { return Err(Unavailable), u, at; }
    var a := Later(u);
    var metadata := ledger.metadata(h(a));
    var b := Later(a);
    var balance := ledger.balance(h(b));
    var after, v := LastBlockId(GENESIS, h, fails, b);
    at := Reads(Sighting(t, u), a, b, v);
    if fails(a) || fails(b) { return Err(Unavailable), v, at; }
    if after.Err? { return Err(after.error), v, at; }
    if before.value != after.value { return Err(TipMoved), v, at; }
    if !metadata.bound || balance != ExpectedBalance(metadata.status, amount) {
      return Err(InvalidObservation), v, at;
    }
    assert AppendOnly(h) ==> Extends(h, t, u) && Extends(h, u, a) && Extends(h, a, b) && Extends(h, b, v);
    return Ok(Snapshot(metadata.status, balance, TipOf(block.value.value))), v, at;
  }

  /**
   A snapshot taken between two instants: its tip is the pinned one or higher, and both its accounts come from chains
   that extend the pinned one.
   */
  ghost predicate FactsExtend(h: History, ledger: Ledger, amount: nat, from: nat, upTo: nat, tip: ChainTip,
                              pinned: Blocks, snapshot: Snapshot, at: Reads) {
    && InOrderBetween(from, upTo, at) && SnapshotReads(h, ledger, amount, snapshot, at)
    && (snapshot.tip == tip || snapshot.tip.height > tip.height)
    && pinned <= h(at.metadataAt) && pinned <= h(at.balanceAt)
  }

  /** On an append-only chain a snapshot taken after the pin has the pinned tip or a higher one. */
  lemma SnapshotIsNoLower(genesisHash: BlockHash, h: History, ledger: Ledger, amount: nat, pinnedAt: nat, upTo: nat,
                          tip: ChainTip, pinned: Blocks, snapshot: Snapshot, at: Reads)
    requires ValidHistory(GENESIS, genesisHash, h) && AppendOnly(h) && Pins(GENESIS, h, pinnedAt, tip, pinned)
    requires InOrderBetween(pinnedAt, upTo, at) && SnapshotReads(h, ledger, amount, snapshot, at)
    ensures snapshot.tip == tip || snapshot.tip.height > tip.height
    ensures StillCanonical(GENESIS, h, upTo, tip)
  {
    assert Extends(h, pinnedAt, at.balanceAt) && Extends(h, pinnedAt, upTo);
    assert Linked(GENESIS, genesisHash, h(at.balanceAt));
    assert h(upTo)[|pinned| - 1] == pinned[|pinned| - 1];
  }

  /** The snapshot, and the checks that it and the latest tip extend the pinned view. */
  method SnapshotAndConfirm(genesisHash: BlockHash, h: History, fails: Outages, ledger: Ledger, now: nat, amount: nat,
                            tip: ChainTip, wanted: bool, ghost pinnedAt: nat, ghost pinned: Blocks)
    returns (r: Result<(Option<Snapshot>, ChainTip), ObservationError>, later: nat, ghost at: Reads,
             ghost c: Closing)
    requires ValidHistory(GENESIS, genesisHash, h) && pinnedAt <= now && Pins(GENESIS, h, pinnedAt, tip, pinned)
    ensures later >= now && r != Err(Ambiguous)
    ensures r.Ok? ==> (r.value.0.Some? <==> wanted)
    ensures r.Ok? && wanted ==> FactsExtend(h, ledger, amount, now, later, tip, pinned, r.value.0.value, at)
    ensures r.Ok? ==> ClosesWith(h, if wanted then at.closedAt else now, later, tip, r.value.1, c)
    ensures AppendOnly(h) && r == Err(TipMoved) ==> wanted && InOrderBetween(now, later, at) && !HeightHeld(h, at)
    ensures Steady(h, fails) && !wanted ==> r.Ok?
    ensures Steady(h, fails) && wanted ==>
            InOrderBetween(now, later, at) && Agrees(r, SnapshotCheck(h, ledger, amount, at))
  {
    var snapshot: Option<Snapshot> := None;
    var v := now;
    at, c := Reads(Sighting(now, now), now, now, now), Closing(Sighting(now, now), now);
    if wanted {
      var taken;
      taken, v, at := ReadSnapshot(genesisHash, h, fails, ledger, now, amount);
      if taken.Err? { return Err(taken.error), v, at, c; }
      snapshot := Some(taken.value);
    }
    var tipAfter, w;
    ghost var seen, s;
    tipAfter, w, seen, s := ConfirmTipExtends(genesisHash, h, fails, v, tip, pinnedAt, pinned);
    c := Closing(s, seen);
    if tipAfter.Err? { return Err(tipAfter.error), w, at, c; }
    later := w;
    if wanted {
      PinnedBetween(GENESIS, genesisHash, h, pinnedAt, at.metadataAt, seen, tip, pinned);
      PinnedBetween(GENESIS, genesisHash, h, pinnedAt, at.balanceAt, seen, tip, pinned);
      if AppendOnly(h) {
        SnapshotIsNoLower(genesisHash, h, ledger, amount, pinnedAt, w, tip, pinned, snapshot.value, at);
      }
      var confirmed;
      confirmed, later := ConfirmExtends(genesisHash, h, fails, w, tip, snapshot.value.tip);
      if confirmed.Err? { return Err(confirmed.error), later, at, c; }
    }
    return Ok((snapshot, tipAfter.value)), later, at, c;
  }

  // ----- The observers --------------------------------------------------------------------------

  datatype Target = Exact | DiscoverByTerms(window: Window)

  datatype Observation = Observation(tip: ChainTip, initialization: Verdict, funding: Verdict,
                                     snapshot: Option<Snapshot>, tipAfter: ChainTip)

  /** The side that locked, by its own two transactions, or its counterparty, by the terms. */
  predicate Entitled(role: Participant, signer: AccountId, terms: Terms, target: Target) {
    && (target.Exact? ==> terms.depositor == role && terms.depositorAccount == signer)
    && (target.DiscoverByTerms? ==>
          terms.claimant == role && terms.claimantAccount == signer && terms.depositor != role)
  }

  /** Witnessed terms name the account of their aggregate key, and neither party's. */
  predicate Authorized(terms: EscrowTerms) {
    terms.Witnessed? ==>
      && terms.authority == KeyAccount(terms.aggregateKey)
      && terms.authority !in {terms.terms.claimantAccount, terms.terms.depositorAccount}
  }

  /** `validate_witnessed_authority`; hashlock terms have none. */
  method ValidateAuthority(terms: EscrowTerms) returns (ok: bool)
    ensures ok <==> Authorized(terms)
  {
    if terms.Hashlocked? { return true; }
    if terms.authority != KeyAccount(terms.aggregateKey) { return false; }
    return terms.authority != terms.terms.claimantAccount && terms.authority != terms.terms.depositorAccount;
  }

  /** What a steady node leaves to refuse a pair for: the verdicts of the chain, and the snapshot of what is found. */
  ghost function PairCheck(h: History, ledger: Ledger, amount: nat,
                           atomic: Result<(Verdict, Verdict), ObservationError>, at: Reads): Option<ObservationError> {
    match atomic
    case Err(e) => Some(e)
    case Ok(v) => if v.0.FoundAt? || v.1.FoundAt? then SnapshotCheck(h, ledger, amount, at) else None
  }

  /** A requested window as it is; for an exact target the newest one up to a tip read for it. */
  method ChooseWindow(genesisHash: BlockHash, h: History, fails: Outages, now: nat, target: Target)
    returns (r: Result<Window, ObservationError>, later: nat, ghost s: Sighting, ghost tip: ChainTip,
             ghost chain: Blocks)
    requires ValidHistory(GENESIS, genesisHash, h)
    ensures later >= now
    ensures target.DiscoverByTerms? ==> r == Ok(target.window)
    ensures target.Exact? && r.Ok? ==>
            SeesTip(GENESIS, h, now, later, s, tip, chain) && r.value == NewestWindow(GENESIS, tip.height)
    ensures r.Err? ==> r.error != TipMoved && r.error != Ambiguous
    ensures Steady(h, fails) ==> r.Ok?
  {
    s, tip, chain := Sighting(now, now), ChainTip(genesisHash, GENESIS), [];
    if target.DiscoverByTerms? { return Ok(target.window), now, s, tip, chain; }
    ghost var heightAt;
    var read;
    read, later, chain, heightAt := ReadTip(GENESIS, genesisHash, h, fails, now);
    s := Sighting(heightAt, later);
    if read.Err? { return Err(read.error), later, s, tip, chain; }
    tip := read.value;
    assert Steady(h, fails) ==> |h(later)| <= U64_MAX;
    var window := NewestWindow(GENESIS, read.value.height);
    if !WindowOk(window.0, window.1) { return Err(InvalidObservation), later, s, tip, chain; }
    return Ok(window), later, s, tip, chain;
  }

  /** The sightings, the chains and the reads an observation turned out to rest on. */
  datatype Trace = Trace(chosen: Sighting, chosenTip: ChainTip, chosenChain: Blocks, window: Window,
                         pin: Sighting, tip: ChainTip, pinned: Blocks, facts: Reads, closing: Closing)

  /**
   The pinned tip was seen during the call. The window is the requested one, or the newest one of a tip that was
   seen during the call, before the pin.
   */
  ghost predicate Grounded(h: History, now: nat, later: nat, target: Target, trace: Trace) {
    && SeesTip(GENESIS, h, now, later, trace.pin, trace.tip, trace.pinned)
    && if target.DiscoverByTerms? then trace.window == target.window
       else
         && SeesTip(GENESIS, h, now, trace.pin.heightAt, trace.chosen, trace.chosenTip, trace.chosenChain)
         && trace.window == NewestWindow(GENESIS, trace.chosenTip.height)
  }

  /** The later tip was seen after the pin, and after the snapshot if there is one. */
  ghost predicate ClosesLast(h: History, later: nat, snapshot: Option<Snapshot>, tipAfter: ChainTip, trace: Trace) {
    var from := if snapshot.Some? then trace.facts.closedAt else trace.pin.blockAt;
    ClosesWith(h, from, later, trace.tip, tipAfter, trace.closing)
  }

  ghost function NoTrace(genesisHash: BlockHash, now: nat): Trace {
    var s, tip := Sighting(now, now), ChainTip(genesisHash, GENESIS);
    Trace(s, tip, [], (0, 1), s, tip, [], Reads(s, now, now, now), Closing(s, now))
  }

  /** The first half of an observation: a window, its blocks on a pinned chain, and the scan of them. */
  method PinAndScan(genesisHash: BlockHash, h: History, fails: Outages, now: nat, classify: Classifier<Found>,
                    target: Target)
    returns (r: Result<(ChainTip, Slots<Found>, bool), ObservationError>, later: nat, ghost trace: Trace)
    requires ValidHistory(GENESIS, genesisHash, h)
    requires forall block: Block, i: nat :: classify(block, i) != Fail(TipMoved)
    ensures later >= now
    ensures r.Ok? || r == Err(Ambiguous) ==> Grounded(h, now, later, target, trace)
    ensures r.Ok? ==> r.value.0 == trace.tip && r.value.2 == Covers(GENESIS, trace.pinned, trace.window)
    ensures r.Ok? ==> AtomicScan(GENESIS, classify, target.Exact?, trace.window, trace.pinned) == Ok(r.value.1)
    ensures r == Err(Ambiguous) ==>
            AtomicScan(GENESIS, classify, target.Exact?, trace.window, trace.pinned) == Err(Ambiguous)
    ensures AppendOnly(h) ==> r != Err(TipMoved)
    ensures Steady(h, fails) ==>
              && Grounded(h, now, later, target, trace)
              && var atomic := AtomicScan(GENESIS, classify, target.Exact?, trace.window, trace.pinned);
                 (r.Ok? <==> atomic.Ok?) && (r.Err? ==> atomic == Err(r.error))
  {
    ghost var chosenBy, chosenTip, chosenChain;
    var chosen, t;
    chosen, t, chosenBy, chosenTip, chosenChain := ChooseWindow(genesisHash, h, fails, now, target);
    trace := NoTrace(genesisHash, t);
    if chosen.Err? { return Err(chosen.error), t, trace; }
    ghost var pin, pinned;
    var read, u;
    read, u, pin, pinned := BlocksInWindow(genesisHash, h, fails, t, chosen.value);
    if read.Err? { return Err(read.error), u, trace; }
    trace := Trace(chosenBy, chosenTip, chosenChain, chosen.value, pin, read.value.0, pinned, trace.facts,
                   trace.closing);
    var duplicate := if target.Exact? then InvalidObservation else Ambiguous;
    var scanned := ScanBlocks(classify, read.value.1, duplicate);
    ScanErrors(classify, read.value.1, duplicate, TipMoved);
    if scanned.Err? { return Err(scanned.error), u, trace; }
    return Ok((read.value.0, scanned.value, read.value.2)), u, trace;
  }

  /**
   What an answer about a pair rests on. An accepted one is the atomic answer on a pinned chain whose tip was seen
   during the call, and its account facts were read after that from chains that extend the pinned one. A report of
   ambiguity is real too. An append-only chain is called moving only when something was found and a block arrived
   between the two height reads of its snapshot; an accepted snapshot has none between them.
   */
  ghost predicate PairObserved(h: History, ledger: Ledger, now: nat, later: nat, classify: Classifier<Found>,
                               amount: nat, target: Target, r: Result<Observation, ObservationError>, trace: Trace) {
    var atomic := AtomicVerdicts(GENESIS, classify, target.Exact?, trace.window, trace.pinned);
    && (r.Ok? || r == Err(Ambiguous) || (AppendOnly(h) && r == Err(TipMoved)) ==>
          Grounded(h, now, later, target, trace))
    && (r.Ok? ==>
          && atomic == Ok((r.value.initialization, r.value.funding))
          && r.value.tip == trace.tip && ClosesLast(h, later, r.value.snapshot, r.value.tipAfter, trace)
          && (r.value.snapshot.Some? <==> r.value.initialization.FoundAt? || r.value.funding.FoundAt?)
          && (r.value.snapshot.Some? ==>
                FactsExtend(h, ledger, amount, trace.pin.blockAt, later, trace.tip, trace.pinned,
                            r.value.snapshot.value, trace.facts)))
    && (r == Err(Ambiguous) ==> atomic == Err(Ambiguous))
    && (AppendOnly(h) && r == Err(TipMoved) ==>
          && atomic.Ok? && (atomic.value.0.FoundAt? || atomic.value.1.FoundAt?)
          && InOrderBetween(trace.pin.blockAt, later, trace.facts) && !HeightHeld(h, trace.facts))
  }

  /** An admitted observation: a scan of a pinned chain, and the snapshot of what it found. */
  method ObservePair(genesisHash: BlockHash, h: History, fails: Outages, ledger: Ledger, now: nat,
                     classify: Classifier<Found>, amount: nat, target: Target)
    returns (r: Result<Observation, ObservationError>, later: nat, ghost trace: Trace)
    requires ValidHistory(GENESIS, genesisHash, h)
    requires forall block: Block, i: nat :: classify(block, i) != Fail(TipMoved)
    ensures later >= now && PairObserved(h, ledger, now, later, classify, amount, target, r, trace)
    ensures Steady(h, fails) ==>
              && Grounded(h, now, later, target, trace)
              && var atomic := AtomicVerdicts(GENESIS, classify, target.Exact?, trace.window, trace.pinned);
                 Agrees(r, PairCheck(h, ledger, amount, atomic, trace.facts))
  {
    var scanned, u;
    scanned, u, trace := PinAndScan(genesisHash, h, fails, now, classify, target);
    if scanned.Err? { return Err(scanned.error), u, trace; }
    var slots := scanned.value.1;
    if !InOrder(slots) { return Err(InvalidObservation), u, trace; }
    ghost var facts, closing;
    var confirmed, v;
    confirmed, v, facts, closing :=
      SnapshotAndConfirm(genesisHash, h, fails, ledger, u, amount, scanned.value.0,
                         slots.first.Some? || slots.second.Some?, trace.pin.blockAt, trace.pinned);
    trace := trace.(facts := facts, closing := closing);
    if confirmed.Err? { return Err(confirmed.error), v, trace; }
    var missingIsAbsent := target.DiscoverByTerms? && scanned.value.2;
    return Ok(Observation(scanned.value.0, VerdictOf(slots.first, missingIsAbsent),
                          VerdictOf(slots.second, missingIsAbsent), confirmed.value.0, confirmed.value.1)), v, trace;
  }

  /**
   Observes a pair while the chain moves, for the side that locked or its counterparty. What it answers rests on one
   pinned chain; and a steady node's chain is refused for nothing but what `PairCheck` says.
   */
  method ObserveEscrow(genesisHash: BlockHash, h: History, fails: Outages, ledger: Ledger, now: nat, program: ProgramId,
                       role: Participant, signer: AccountId, terms: EscrowTerms, target: Target,
                       owned: Option<Expected>)
    returns (r: Result<Observation, ObservationError>, later: nat, ghost trace: Trace)
    requires ValidHistory(GENESIS, genesisHash, h)
    ensures later >= now
    ensures !Authorized(terms) ==> r == Err(InvalidObservation)
    ensures Authorized(terms) && !(Entitled(role, signer, terms.terms, target) && (target.Exact? ==> owned.Some?)) ==>
            r == Err(PlannerRefused)
    ensures var classify := PairClassifier(program, terms, if target.Exact? then owned else None);
            && PairObserved(h, ledger, now, later, classify, terms.terms.amount, target, r, trace)
            && (Steady(h, fails) && Authorized(terms) && Entitled(role, signer, terms.terms, target)
                && (target.Exact? ==> owned.Some?) ==>
                  && Grounded(h, now, later, target, trace)
                  && var atomic := AtomicVerdicts(GENESIS, classify, target.Exact?, trace.window, trace.pinned);
                     Agrees(r, PairCheck(h, ledger, terms.terms.amount, atomic, trace.facts)))
  {
    trace := NoTrace(genesisHash, now);
    var authorized := ValidateAuthority(terms);
    if !authorized { return Err(InvalidObservation), now, trace; }
    if target.Exact? {
      if terms.terms.depositor != role || terms.terms.depositorAccount != signer || owned.None? {
        return Err(PlannerRefused), now, trace;
      }
    } else if terms.terms.claimant != role || terms.terms.claimantAccount != signer || terms.terms.depositor == role {
      return Err(PlannerRefused), now, trace;
    }
    r, later, trace := ObservePair(genesisHash, h, fails, ledger, now,
                                   PairClassifier(program, terms, if target.Exact? then owned else None),
                                   terms.terms.amount, target);
  }

  datatype ClaimObservation = ClaimObservation(tip: ChainTip, claim: Verdict, snapshot: Option<Snapshot>,
                                               tipAfter: ChainTip)

  /** The side that claims, by its own transaction, or its counterparty, by the terms. */
  predicate EntitledToClaim(role: Participant, signer: AccountId, terms: Terms, target: Target) {
    && (target.Exact? ==> terms.claimant == role && terms.claimantAccount == signer)
    && (target.DiscoverByTerms? ==>
          terms.depositor == role && terms.depositorAccount == signer && terms.claimant != role)
  }

  /** What a steady node leaves to refuse a claim for: a found one also needs an escrow that shows it. */
  ghost function ClaimCheck(h: History, ledger: Ledger, amount: nat, atomic: Result<Verdict, ObservationError>,
                            at: Reads): Option<ObservationError> {
    match atomic
    case Err(e) => Some(e)
    case Ok(v) => if v.FoundAt? then FoundClaimCheck(h, ledger, amount, at) else None
  }

  ghost function FoundClaimCheck(h: History, ledger: Ledger, amount: nat, at: Reads): Option<ObservationError> {
    var check := SnapshotCheck(h, ledger, amount, at);
    if check.None? && ledger.metadata(h(at.metadataAt)).status != Claimed then Some(TipMoved) else check
  }

  /** A claim's verdict from one scan; an exact claim that is not found is called absent without coverage. */
  function AtomicClaim(classify: Classifier<Found>, exact: bool, window: Window, pinned: Blocks)
    : Result<Verdict, ObservationError>
  {
    match AtomicScan(GENESIS, classify, exact, window, pinned)
    case Err(e) => Err(e)
    case Ok(slots) => Ok(VerdictOf(slots.first, exact || Covers(GENESIS, pinned, window)))
  }

  /**
   A discovered claim is absent exactly when the whole declared window is on the pinned chain without a
   match; an exact one is absent when the scanned heights have none, however few of the window they are.
   */
  lemma ClaimVerdictMeans(classify: Classifier<Found>, exact: bool, window: Window, pinned: Blocks, f: Found)
    requires AtomicClaim(classify, exact, window, pinned).Ok?
    ensures var v := AtomicClaim(classify, exact, window, pinned).value;
            && (v == FoundAt(f) <==> Occurs(GENESIS, classify, window, pinned, First(f)))
            && (!v.FoundAt? ==> !Occurs(GENESIS, classify, window, pinned, First(f)))
            && (!v.FoundAt? ==> (v == Absent <==> exact || Covers(GENESIS, pinned, window)))
  {
    SlotsAreUniqueMatches(GENESIS, classify, exact, window, pinned, f);
  }

  /** The account snapshot of a found claim: its tip extends the pinned one, and the escrow is claimed and emptied. */
  method ClaimSnapshot(genesisHash: BlockHash, h: History, fails: Outages, ledger: Ledger, now: nat, amount: nat,
                       tip: ChainTip, ghost pinnedAt: nat, ghost pinned: Blocks)
    returns (r: Result<Snapshot, ObservationError>, later: nat, ghost at: Reads)
    requires ValidHistory(GENESIS, genesisHash, h) && pinnedAt <= now && Pins(GENESIS, h, pinnedAt, tip, pinned)
    ensures InOrderBetween(now, later, at) && r != Err(Ambiguous)
    ensures r.Ok? ==>
            SnapshotReads(h, ledger, amount, r.value, at) && (r.value.tip == tip || r.value.tip.height > tip.height)
    ensures r.Ok? ==> r.value.status == Claimed
    ensures AppendOnly(h) && r == Err(TipMoved) ==>
            !HeightHeld(h, at) || ledger.metadata(h(at.metadataAt)).status != Claimed
    ensures Steady(h, fails) ==> Agrees(r, FoundClaimCheck(h, ledger, amount, at))
  {
    r, later, at := ReadSnapshot(genesisHash, h, fails, ledger, now, amount);
    if r.Ok? {
      if AppendOnly(h) {
        SnapshotIsNoLower(genesisHash, h, ledger, amount, pinnedAt, later, tip, pinned, r.value, at);
      }
      var confirmed;
      confirmed, later := ConfirmExtends(genesisHash, h, fails, later, tip, r.value.tip);
      if confirmed.Err? { r := Err(confirmed.error); }
      else if r.value.status != Claimed { r := Err(TipMoved); }
    }
  }

  /** The snapshot of a claim if one was found, and then the check that the latest tip extends the pinned view. */
  method ConfirmClaim(genesisHash: BlockHash, h: History, fails: Outages, ledger: Ledger, now: nat, amount: nat,
                      tip: ChainTip, found: bool, ghost pinnedAt: nat, ghost pinned: Blocks)
    returns (r: Result<(Option<Snapshot>, ChainTip), ObservationError>, later: nat, ghost at: Reads,
             ghost c: Closing)
    requires ValidHistory(GENESIS, genesisHash, h) && pinnedAt <= now && Pins(GENESIS, h, pinnedAt, tip, pinned)
    ensures later >= now && r != Err(Ambiguous)
    ensures r.Ok? ==> (r.value.0.Some? <==> found)
    ensures r.Ok? && found ==>
              && FactsExtend(h, ledger, amount, now, later, tip, pinned, r.value.0.value, at)
              && r.value.0.value.status == Claimed
    ensures r.Ok? ==> ClosesWith(h, if found then at.closedAt else now, later, tip, r.value.1, c)
    ensures AppendOnly(h) && r == Err(TipMoved) ==>
              && found && InOrderBetween(now, later, at)
              && (!HeightHeld(h, at) || ledger.metadata(h(at.metadataAt)).status != Claimed)
    ensures Steady(h, fails) ==> Agrees(r, if found then FoundClaimCheck(h, ledger, amount, at) else None)
  {
    var snapshot: Option<Snapshot> := None;
    var v := now;
    at, c := Reads(Sighting(now, now), now, now, now), Closing(Sighting(now, now), now);
    if found {
      var taken;
      taken, v, at := ClaimSnapshot(genesisHash, h, fails, ledger, now, amount, tip, pinnedAt, pinned);
      if taken.Err? { return Err(taken.error), v, at, c; }
      snapshot := Some(taken.value);
    }
    var tipAfter;
    ghost var seen, s;
    tipAfter, later, seen, s := ConfirmTipExtends(genesisHash, h, fails, v, tip, pinnedAt, pinned);
    c := Closing(s, seen);
    if tipAfter.Err? { return Err(tipAfter.error), later, at, c; }
    if found {
      PinnedBetween(GENESIS, genesisHash, h, pinnedAt, at.metadataAt, seen, tip, pinned);
      PinnedBetween(GENESIS, genesisHash, h, pinnedAt, at.balanceAt, seen, tip, pinned);
    }
    return Ok((snapshot, tipAfter.value)), later, at, c;
  }

  /**
   What an answer about a claim rests on: the atomic verdict on a pinned chain whose tip was seen during the call, and
   for a found claim a claimed, emptied escrow above it. A report of ambiguity is real. An append-only chain is
   called moving only for a found claim, when a block arrived between the two height reads of its snapshot or the
   snapshot does not show the escrow claimed; an accepted snapshot has neither.
   */
  ghost predicate ClaimObserved(h: History, ledger: Ledger, now: nat, later: nat, classify: Classifier<Found>,
                                amount: nat, target: Target, r: Result<ClaimObservation, ObservationError>,
                                trace: Trace) {
    var atomic := AtomicClaim(classify, target.Exact?, trace.window, trace.pinned);
    && (r.Ok? || r == Err(Ambiguous) || (AppendOnly(h) && r == Err(TipMoved)) ==>
          Grounded(h, now, later, target, trace))
    && (r.Ok? ==>
          && atomic == Ok(r.value.claim)
          && r.value.tip == trace.tip && ClosesLast(h, later, r.value.snapshot, r.value.tipAfter, trace)
          && (r.value.snapshot.Some? <==> r.value.claim.FoundAt?)
          && (r.value.snapshot.Some? ==>
                && FactsExtend(h, ledger, amount, trace.pin.blockAt, later, trace.tip, trace.pinned,
                               r.value.snapshot.value, trace.facts)
                && r.value.snapshot.value.status == Claimed && r.value.snapshot.value.balance == 0))
    && (r == Err(Ambiguous) ==> atomic == Err(Ambiguous))
    && (AppendOnly(h) && r == Err(TipMoved) ==>
          && atomic.Ok? && atomic.value.FoundAt? && InOrderBetween(trace.pin.blockAt, later, trace.facts)
          && (!HeightHeld(h, trace.facts) || ledger.metadata(h(trace.facts.metadataAt)).status != Claimed))
  }

  /** An admitted observation of a claim: a scan of a pinned chain, and the snapshot of what it found. */
  method ObserveClaims(genesisHash: BlockHash, h: History, fails: Outages, ledger: Ledger, now: nat,
                       classify: Classifier<Found>, amount: nat, target: Target)
    returns (r: Result<ClaimObservation, ObservationError>, later: nat, ghost trace: Trace)
    requires ValidHistory(GENESIS, genesisHash, h)
    requires forall block: Block, i: nat :: classify(block, i) != Fail(TipMoved)
    ensures later >= now && ClaimObserved(h, ledger, now, later, classify, amount, target, r, trace)
    ensures Steady(h, fails) ==>
              && Grounded(h, now, later, target, trace)
              && var atomic := AtomicClaim(classify, target.Exact?, trace.window, trace.pinned);
                 Agrees(r, ClaimCheck(h, ledger, amount, atomic, trace.facts))
  {
    var scanned, u;
    scanned, u, trace := PinAndScan(genesisHash, h, fails, now, classify, target);
    if scanned.Err? { return Err(scanned.error), u, trace; }
    var first := scanned.value.1.first;
    ghost var facts, closing;
    var confirmed, v;
    confirmed, v, facts, closing :=
      ConfirmClaim(genesisHash, h, fails, ledger, u, amount, scanned.value.0, first.Some?, trace.pin.blockAt,
                   trace.pinned);
    trace := trace.(facts := facts, closing := closing);
    if confirmed.Err? { return Err(confirmed.error), v, trace; }
    return Ok(ClaimObservation(scanned.value.0, VerdictOf(first, target.Exact? || scanned.value.2), confirmed.value.0,
                               confirmed.value.1)), v, trace;
  }

  /**
   Observes a claim while the chain moves, for the side that claims or its counterparty. What it answers rests on one
   pinned chain; and a steady node's chain is refused for nothing but what `ClaimCheck` says.
   */
  method ObserveClaim(genesisHash: BlockHash, h: History, fails: Outages, ledger: Ledger, now: nat, program: ProgramId,
                      role: Participant, signer: AccountId, terms: Terms, target: Target,
                      owned: Option<(Prepared, nat)>)
    returns (r: Result<ClaimObservation, ObservationError>, later: nat, ghost trace: Trace)
    requires ValidHistory(GENESIS, genesisHash, h)
    ensures later >= now
    ensures !(EntitledToClaim(role, signer, terms, target) && (target.Exact? ==> owned.Some?)) ==>
            r == Err(PlannerRefused)
    ensures var classify := ClaimClassifier(program, terms, if target.Exact? then owned else None);
            && ClaimObserved(h, ledger, now, later, classify, terms.amount, target, r, trace)
            && (Steady(h, fails) && EntitledToClaim(role, signer, terms, target) && (target.Exact? ==> owned.Some?) ==>
                  && Grounded(h, now, later, target, trace)
                  && var atomic := AtomicClaim(classify, target.Exact?, trace.window, trace.pinned);
                     Agrees(r, ClaimCheck(h, ledger, terms.amount, atomic, trace.facts)))
  {
    trace := NoTrace(genesisHash, now);
    if target.Exact? {
      if terms.claimant != role || terms.claimantAccount != signer || owned.None? {
        return Err(PlannerRefused), now, trace;
      }
    } else if terms.depositor != role || terms.depositorAccount != signer || terms.claimant == role {
      return Err(PlannerRefused), now, trace;
    }
    r, later, trace := ObserveClaims(genesisHash, h, fails, ledger, now,
                                     ClaimClassifier(program, terms, if target.Exact? then owned else None),
                                     terms.amount, target);
  }
}
