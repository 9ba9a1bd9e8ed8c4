/**
 The v0.1.2 observers: they recompute every block hash of the range they read and accept an answer only
 when the tip before and after is the same. All node faults read as one invalid observation here.
 */
module TipBracket {
  import opened Wrappers
  import opened Nssa
  import opened Chain
  import opened Scanning
  import V2 = EscrowObservation

  type EscrowStatus = V2.EscrowStatus

  /** The first block of a v0.1.2 chain has height zero. */
  const GENESIS: nat := 0

  // ----- Hash-checked ranges ----------------------------------------------------------------------

  predicate HashOk(block: Block) {
    block.hash == BlockHashOf(block.height, block.prev, block.timestamp, block.transactions)
  }

  /** Every canonical block has the hash of its content. */
  ghost predicate Hashed(h: History) { forall t: nat, i: nat :: i < |h(t)| ==> HashOk(h(t)[i]) }

  predicate HashedRange(blocks: Blocks, start: nat, end: nat, genesisHash: BlockHash) {
    && start <= end && |blocks| == end - start + 1
    && (forall i :: 0 <= i < |blocks| ==> blocks[i].height == start + i && HashOk(blocks[i]))
    && (forall i :: 0 <= i < |blocks| && start + i == GENESIS ==> blocks[i].hash == genesisHash)
    && (forall i :: 0 < i < |blocks| ==> blocks[i].prev == blocks[i - 1].hash)
  }

  method ValidateBlockRange(blocks: Blocks, start: nat, end: nat, genesisHash: BlockHash) returns (ok: bool)
    ensures ok <==> HashedRange(blocks, start, end, genesisHash)
  {
    if end < start || |blocks| != end - start + 1 { return false; }
    for i := 0 to |blocks|
      invariant forall k :: 0 <= k < i ==> blocks[k].height == start + k && HashOk(blocks[k])
      invariant forall k :: 0 <= k < i && start + k == GENESIS ==> blocks[k].hash == genesisHash
      invariant forall k :: 0 < k < i ==> blocks[k].prev == blocks[k - 1].hash
    {
      if blocks[i].height != start + i || !HashOk(blocks[i]) { return false; }
      if blocks[i].height == GENESIS && blocks[i].hash != genesisHash { return false; }
      if i > 0 && blocks[i].prev != blocks[i - 1].hash { return false; }
    }
    return true;
  }

  /**
   A range is pinned by its last hash: two accepted ranges of the same heights that end in the same
   block hash have the same hashed content at every height, whoever answered them.
   */
  lemma {:induction false} RangesWithOneTipAgree(a: Blocks, b: Blocks, start: nat, end: nat, genesisHash: BlockHash,
                                                 i: nat)
    requires HashedRange(a, start, end, genesisHash) && HashedRange(b, start, end, genesisHash)
    requires a[|a| - 1].hash == b[|b| - 1].hash && i < |a|
    ensures a[i] == b[i]
    decreases |a| - i
  {
    if i + 1 < |a| {
      RangesWithOneTipAgree(a, b, start, end, genesisHash, i + 1);
      assert a[i].hash == a[i + 1].prev && b[i].hash == b[i + 1].prev;
    }
  }

  // ----- Classifiers ------------------------------------------------------------------------------

  function Located(public: PublicTransaction, block: Block, index: nat): Found {
    Found(PreparedFrom(public), Position(block.hash, block.height, index), public.message.accounts)
  }

  /** A fault in an exactly expected transaction is an error; in any other it is no match. */
  function Mismatch(exact: bool): Classified<Found> { if exact then Fail(InvalidObservation) else Skip }

  /** `decode_native_match`: a whole message must be the initialization or the funding message for its own nonce. */
  function ClassifyPair(program: ProgramId, terms: Terms, expected: Option<(Prepared, Prepared)>, block: Block,
                        index: nat): Classified<Found> {
    if index >= |block.transactions| then Skip
    else
      var transaction := block.transactions[index];
      var isFirst := expected.Some? && transaction.Hash() == expected.value.0.id;
      var isSecond := expected.Some? && !isFirst && transaction.Hash() == expected.value.1.id;
      if expected.Some? && !isFirst && !isSecond then Skip
      else if transaction.Private? || transaction.public.message.program != program
          || |transaction.public.message.nonces| != 1
      then Mismatch(expected.Some?)
      else
        var public := transaction.public;
        var nonce := public.message.nonces[0];
        var initialization := public.message == InitializationMessage(program, terms, nonce);
        var funding := public.message == FundingMessage(program, terms, nonce);
        if expected.Some? && (PreparedFrom(public) != (if isFirst then expected.value.0 else expected.value.1)
                              || isFirst != initialization || isFirst == funding) then Fail(InvalidObservation)
        else if !initialization && !funding then Skip
        else if DecodePrepared(PreparedFrom(public), terms.depositorAccount).Err? then Fail(InvalidObservation)
        else if initialization then First(Located(public, block, index)) else Second(Located(public, block, index))
  }

  function PairClassifier(program: ProgramId, terms: Terms, expected: Option<(Prepared, Prepared)>): Classifier<Found> {
    (block: Block, index: nat) => ClassifyPair(program, terms, expected, block, index)
  }

  /** `decode_claim_match`: once program, kind and swap match, anything else wrong is an error. */
  function ClassifyClaim(program: ProgramId, terms: Terms, block: Block, index: nat): Classified<Found> {
    if index >= |block.transactions| || block.transactions[index].Private? then Skip
    else
      var public := block.transactions[index].public;
      var instruction := public.message.instruction;
      if public.message.program != program || !instruction.ClaimNative? || instruction.swapId != terms.swapId then Skip
      else if Sha256(instruction.preimage) != terms.secretDigest
          || |public.message.nonces| != 1 then Fail(InvalidObservation)
      else if public.message != ClaimMessage(program, terms, terms.claimantAccount, public.message.nonces[0],
                                             instruction.preimage)
              || DecodePrepared(PreparedFrom(public), terms.claimantAccount).Err? then Fail(InvalidObservation)
      else First(Located(public, block, index))
  }

  function ClaimClassifier(program: ProgramId, terms: Terms): Classifier<Found> {
    (block: Block, index: nat) => ClassifyClaim(program, terms, block, index)
  }

  /** `decode_refund_match`: the permissionless refund must be the canonical unsigned message. */
  function ClassifyRefund(program: ProgramId, terms: Terms, expected: Option<Prepared>, block: Block,
                          index: nat): Classified<Found> {
    if index >= |block.transactions| then Skip
    else
      var transaction := block.transactions[index];
      if expected.Some? && transaction.Hash() != expected.value.id then Skip
      else if transaction.Private? || transaction.public.message.program != program
              || transaction.public.message.instruction != RefundNative(terms.swapId) then Mismatch(expected.Some?)
      else
        var public := transaction.public;
        if public.message != RefundMessage(program, terms) || (expected.Some? && expected.value != PreparedFrom(public))
           || DecodeUnsignedRefund(PreparedFrom(public), RefundMessage(program, terms)).Err?
               then Fail(InvalidObservation)
        else First(Located(public, block, index))
  }

  function RefundClassifier(program: ProgramId, terms: Terms, expected: Option<Prepared>): Classifier<Found> {
    (block: Block, index: nat) => ClassifyRefund(program, terms, expected, block, index)
  }

  /** The body of the loop of `scan_exact`: one owned transaction, byte for byte. */
  function ClassifyExact(expected: Prepared, block: Block, index: nat): Classified<Found> {
    if index >= |block.transactions| || block.transactions[index].Hash() != expected.id then Skip
    else if block.transactions[index].Private? || PreparedFrom(block.transactions[index].public) != expected
        then Fail(InvalidObservation)
    else First(Located(block.transactions[index].public, block, index))
  }

  function ExactClassifier(expected: Prepared): Classifier<Found> {
    (block: Block, index: nat) => ClassifyExact(expected, block, index)
  }

  // ----- The equal-tip bracket ----------------------------------------------------------------------

  method ReadTip(genesisHash: BlockHash, h: History, fails: Outages, now: nat)
    returns (r: Result<ChainTip, ObservationError>, later: nat, ghost heightAt: nat, ghost pinned: Blocks)
    requires ValidHistory(GENESIS, genesisHash, h)
    ensures now <= heightAt <= later && (r.Err? ==> r.error == Unavailable || r.error == InvalidObservation)
    ensures r.Ok? ==> Pins(GENESIS, h, later, r.value, pinned) && |h(heightAt)| == |pinned|
    ensures r.Ok? ==> Sighted(GENESIS, h, Sighting(heightAt, later)) == Some(r.value)
    ensures Steady(h, fails) && Hashed(h) ==> r.Ok?
  {
    assert forall t: nat :: Linked(GENESIS, genesisHash, h(t));
    pinned := [];
    var height, t := LastBlockId(GENESIS, h, fails, now);
    heightAt := t;
    if height.Err? { return Err(height.error), t, t, []; }
    var block, u := GetBlock(GENESIS, h, fails, t, height.value);
    if block.Err? { return Err(block.error), u, t, []; }
    assert AppendOnly(h) ==> Extends(h, t, u);
    if block.value.None? || !HashOk(block.value.value) { return Err(InvalidObservation), u, t, []; }
    assert Linked(GENESIS, genesisHash, h(u));
    if height.value == GENESIS && block.value.value.hash != genesisHash { return Err(InvalidObservation), u, t, []; }
    return Ok(TipOf(block.value.value)), u, t, h(u)[..height.value - GENESIS + 1];
  }

  function Anchor(window: Window): nat { Max(window.0 - 1, 0) }

  /**
   What a range read of a chain up to a tip height makes of a window: nothing above the tip, the range
   without its anchor otherwise.
   */
  function ReadBlocks(chain: Blocks, window: Window, height: nat): Blocks {
    if window.0 > height then []
    else SkipAnchor(RangeOf(GENESIS, chain, Anchor(window), LastHeight(window, height)), window.0 > 0)
  }

  lemma LinkedRangeHashed(genesisHash: BlockHash, chain: Blocks, start: nat, end: nat)
    requires Linked(GENESIS, genesisHash, chain) && GENESIS <= start <= end < GENESIS + |chain|
    requires forall i: nat :: i < |chain| ==> HashOk(chain[i])
    ensures HashedRange(RangeOf(GENESIS, chain, start, end), start, end, genesisHash)
  {
    var range := RangeOf(GENESIS, chain, start, end);
    assert forall i :: 0 <= i < |range| ==> range[i] == chain[start - GENESIS + i];
  }

  method ReadWindow(genesisHash: BlockHash, h: History, fails: Outages, now: nat, window: Window, tip: ChainTip)
    returns (r: Result<Blocks, ObservationError>, later: nat)
    ensures later >= now && (r.Err? ==> r.error == Unavailable || r.error == InvalidObservation)
    ensures r.Ok? ==> r.value == ReadBlocks(h(later), window, tip.height)
    ensures r.Ok? && window.0 <= tip.height ==>
              HashedRange(RangeOf(GENESIS, h(later), Anchor(window), LastHeight(window, tip.height)), Anchor(window),
                          LastHeight(window, tip.height), genesisHash)
    ensures ValidHistory(GENESIS, genesisHash, h) && Steady(h, fails) && Hashed(h) && tip.height < |h(now)| ==> r.Ok?
  {
    if window.0 > tip.height { return Ok([]), now; }
    var range;
    range, later := GetBlockRange(GENESIS, h, fails, now, Anchor(window), LastHeight(window, tip.height));
    if range.Err? { return Err(range.error), later; }
    if ValidHistory(GENESIS, genesisHash, h) && AppendOnly(h) && Hashed(h) && tip.height < |h(now)| {
      assert Extends(h, now, later) && Linked(GENESIS, genesisHash, h(later));
      assert forall i: nat :: i < |h(later)| ==> HashOk(h(later)[i]);
      LinkedRangeHashed(genesisHash, h(later), Anchor(window), LastHeight(window, tip.height));
    }
    var valid := ValidateBlockRange(range.value, Anchor(window), LastHeight(window, tip.height), genesisHash);
    if !valid { return Err(InvalidObservation), later; }
    return Ok(SkipAnchor(range.value, window.0 > 0)), later;
  }

  /** Read from any chain that begins with the pinned one, a window is the pinned chain's window. */
  lemma ReadBlocksArePinned(pinned: Blocks, chain: Blocks, window: Window, height: nat)
    requires pinned <= chain && |pinned| == height + 1
    ensures ReadBlocks(chain, window, height) == WindowBlocks(GENESIS, pinned, window)
  {
    var anchor, first, last := Anchor(window), window.0, LastHeight(window, height);
    if first <= height {
      assert GENESIS <= anchor <= first <= last;
      RangeIsWindow(GENESIS, pinned, chain, window, anchor, first, last);
    } else {
      assert WindowBlocks(GENESIS, pinned, window) == [];
    }
  }

  // ----- Accounts ---------------------------------------------------------------------------------

  /** What the escrow's two accounts hold after a chain has run; an account that was never written is absent. */
  datatype Ledger = Ledger(metadata: Blocks -> Option<V2.Metadata>, balance: Blocks -> Option<nat>)

  datatype AccountFacts = AbsentAccounts | EscrowAccounts(status: EscrowStatus)

  /** Both absent, or both present, bound to the terms and with the balance their status calls for. */
  ghost predicate AccountsAre(h: History, ledger: Ledger, amount: nat, facts: AccountFacts, metadataAt: nat,
                              custodyAt: nat) {
    var metadata, balance := ledger.metadata(h(metadataAt)), ledger.balance(h(custodyAt));
    match facts
    case AbsentAccounts => metadata == None && balance == None
    case EscrowAccounts(status) =>
      metadata == Some(V2.Metadata(status, true)) && balance.Some? && V2.CustodyFits(status, amount, balance.value)
  }

  /** Accounts that are both absent, or both there, bound and balanced. */
  ghost predicate AccountsFit(h: History, ledger: Ledger, amount: nat, metadataAt: nat, custodyAt: nat) {
    var metadata, balance := ledger.metadata(h(metadataAt)), ledger.balance(h(custodyAt));
    && (metadata.Some? <==> balance.Some?)
    && (metadata.Some? ==>
          metadata.value.bound && V2.CustodyFits(metadata.value.status, amount, balance.value))
  }

  /** What fitting accounts say. */
  ghost function FactsAt(h: History, ledger: Ledger, metadataAt: nat): AccountFacts {
    var metadata := ledger.metadata(h(metadataAt));
    if metadata.None? then AbsentAccounts else EscrowAccounts(metadata.value.status)
  }

  /** `read_native_account_observation`: each account at its own instant. */
  method ReadAccounts(h: History, fails: Outages, ledger: Ledger, now: nat, amount: nat)
    returns (r: Result<AccountFacts, ObservationError>, later: nat, ghost metadataAt: nat)
    ensures now <= metadataAt <= later && (r.Err? ==> r.error == Unavailable || r.error == InvalidObservation)
    ensures r.Ok? ==> AccountsAre(h, ledger, amount, r.value, metadataAt, later)
    ensures Steady(h, fails) ==>
            r == if AccountsFit(h, ledger, amount, metadataAt, later) then Ok(FactsAt(h, ledger, metadataAt))
                 else Err(InvalidObservation)
  {
    var a := Later(now);
    var b := Later(a);
    metadataAt := a;
    if fails(a) || fails(b) { return Err(Unavailable), b, a; }
    var metadata, balance := ledger.metadata(h(a)), ledger.balance(h(b));
    if metadata.None? && balance.None? { return Ok(AbsentAccounts), b, a; }
    if metadata.None? || balance.None? || !metadata.value.bound
       || balance.value != V2.ExpectedBalance(metadata.value.status, amount) {
      return Err(InvalidObservation), b, a;
    }
    return Ok(EscrowAccounts(metadata.value.status)), b, a;
  }

  /**
   What the accounts must say for what a scan found: a funded pair is not empty, a claim claimed, a refund
   refunded.
   */
  predicate PairAccounts(slots: Slots<Found>, facts: AccountFacts) {
    facts.EscrowAccounts? && (slots.second.Some? ==> facts.status != V2.Empty)
  }
  predicate ClaimAccounts(slots: Slots<Found>, facts: AccountFacts) { facts == EscrowAccounts(V2.Claimed) }
  predicate RefundAccounts(slots: Slots<Found>, facts: AccountFacts) {
    slots.first.Some? ==> facts == EscrowAccounts(V2.Refunded)
  }

  // ----- The bracket ------------------------------------------------------------------------------

  /** When a tip was pinned, the chain it ends, and when it was seen again. */
  datatype Bracket = Bracket(heightAt: nat, pinnedAt: nat, pinned: Blocks, closing: Sighting)

  ghost predicate Closed(h: History, tip: ChainTip, b: Bracket) {
    && b.heightAt <= b.pinnedAt <= b.closing.heightAt <= b.closing.blockAt
    && |h(b.heightAt)| == |b.pinned|
    && Pins(GENESIS, h, b.pinnedAt, tip, b.pinned) && EqualTipCloses(GENESIS, h, tip, b.closing)
  }

  /** Every instant of a closed bracket extends the pinned chain, and equals it if the chain only grows. */
  lemma BracketHolds(genesisHash: BlockHash, h: History, tip: ChainTip, b: Bracket, t: nat)
    requires ValidHistory(GENESIS, genesisHash, h) && Closed(h, tip, b) && b.pinnedAt <= t <= b.closing.heightAt
    ensures b.pinned <= h(t)
    ensures AppendOnly(h) ==> h(t) == b.pinned
  {
    assert Linked(GENESIS, genesisHash, h(b.closing.heightAt)) && Linked(GENESIS, genesisHash, h(b.closing.blockAt));
    PinnedBetween(GENESIS, genesisHash, h, b.pinnedAt, t, b.closing.blockAt, tip, b.pinned);
    assert AppendOnly(h) ==> Extends(h, t, b.closing.heightAt);
  }

  /** The closing read: the very tip that was pinned, or the chain has moved. */
  method CloseTip(genesisHash: BlockHash, h: History, fails: Outages, now: nat, tip: ChainTip)
    returns (r: Result<(), ObservationError>, later: nat, ghost s: Sighting)
    requires ValidHistory(GENESIS, genesisHash, h)
    ensures now <= s.heightAt <= s.blockAt == later
    ensures r.Err? ==> r.error == TipMoved || r.error == Unavailable || r.error == InvalidObservation
    ensures r.Ok? ==> EqualTipCloses(GENESIS, h, tip, s)
    ensures r == Err(TipMoved) ==> !EqualTipCloses(GENESIS, h, tip, s)
    ensures Steady(h, fails) && Hashed(h) ==> r == if EqualTipCloses(GENESIS, h, tip, s) then Ok(()) else Err(TipMoved)
  {
    ghost var heightAt, again;
    var tipAfter;
    tipAfter, later, heightAt, again := ReadTip(genesisHash, h, fails, now);
    s := Sighting(heightAt, later);
    if tipAfter.Err? { return Err(tipAfter.error), later, s; }
    if tipAfter.value != tip { return Err(TipMoved), later, s; }
    return Ok(()), later, s;
  }

  /** A scan whose second match does not come after its first is invalid. */
  ghost function Ordered(scan: Result<Slots<Found>, ObservationError>): Result<Slots<Found>, ObservationError> {
    if scan.Ok? && !InOrder(scan.value) then Err(InvalidObservation) else scan
  }

  /** The hash-checked range of a window, scanned. */
  method ScanWindow(genesisHash: BlockHash, h: History, fails: Outages, now: nat, classify: Classifier<Found>,
                    exact: bool, window: Window, tip: ChainTip)
    returns (r: Result<Slots<Found>, ObservationError>, later: nat)
    ensures later >= now
    ensures r.Ok? ==> InOrder(r.value)
    ensures r.Ok? ==>
            r == Scan(ItemsOf(classify, ReadBlocks(h(later), window, tip.height)),
                      if exact then InvalidObservation else Ambiguous)
    ensures ValidHistory(GENESIS, genesisHash, h) && Steady(h, fails) && Hashed(h) && tip.height < |h(now)| ==>
            r == Ordered(Scan(ItemsOf(classify, ReadBlocks(h(later), window, tip.height)),
                              if exact then InvalidObservation else Ambiguous))
  {
    var blocks;
    blocks, later := ReadWindow(genesisHash, h, fails, now, window, tip);
    if blocks.Err? { return Err(blocks.error), later; }
    r := ScanBlocks(classify, blocks.value, if exact then InvalidObservation else Ambiguous);
    if r.Ok? && !InOrder(r.value) { r := Err(InvalidObservation); }
  }

  /** A scan made inside a closed bracket is the scan of the pinned chain. */
  lemma ScanIsAtomic(genesisHash: BlockHash, h: History, classify: Classifier<Found>, exact: bool, window: Window,
                     tip: ChainTip, b: Bracket, t: nat)
    requires ValidHistory(GENESIS, genesisHash, h) && Closed(h, tip, b) && b.pinnedAt <= t <= b.closing.heightAt
    ensures Scan(ItemsOf(classify, ReadBlocks(h(t), window, tip.height)),
                 if exact then InvalidObservation else Ambiguous)
         == AtomicScan(GENESIS, classify, exact, window, b.pinned)
  {
    BracketHolds(genesisHash, h, tip, b, t);
    ReadBlocksArePinned(b.pinned, h(t), window, tip.height);
  }

  datatype Observation = Observation(tip: ChainTip, slots: Slots<Found>, first: Verdict, second: Verdict,
                                     facts: Option<AccountFacts>)

  /** The bracket of an observation and the instants of its account reads. */
  datatype Trace = Trace(bracket: Bracket, metadataAt: nat, custodyAt: nat)

  /**
   Account facts read inside the bracket: from chains that extend the pinned one, from exactly it if the
   chain only grows.
   */
  ghost predicate FactsInside(h: History, ledger: Ledger, amount: nat, facts: AccountFacts, trace: Trace) {
    && AccountsAre(h, ledger, amount, facts, trace.metadataAt, trace.custodyAt)
    && trace.bracket.pinned <= h(trace.metadataAt) && trace.bracket.pinned <= h(trace.custodyAt)
    && (AppendOnly(h) ==> h(trace.metadataAt) == h(trace.custodyAt) == trace.bracket.pinned)
  }

  /** An accepted observation: the atomic verdicts on the pinned chain of a closed bracket. */
  ghost predicate Accepted(h: History, classify: Classifier<Found>, exact: bool, window: Window, o: Observation,
                           b: Bracket) {
    && Closed(h, o.tip, b)
    && AtomicScan(GENESIS, classify, exact, window, b.pinned) == Ok(o.slots)
    && AtomicVerdicts(GENESIS, classify, exact, window, b.pinned) == Ok((o.first, o.second))
  }

  function Report(tip: ChainTip, slots: Slots<Found>, exact: bool, window: Window,
                  facts: Option<AccountFacts>): Observation {
    var missingIsAbsent := !exact && tip.height >= WindowEnd(window);
    Observation(tip, slots, VerdictOf(slots.first, missingIsAbsent), VerdictOf(slots.second, missingIsAbsent), facts)
  }

  /** What was found, and fitting accounts that say something acceptable about it. */
  ghost predicate FoundFits(h: History, ledger: Ledger, amount: nat, slots: Slots<Found>,
                            accept: (Slots<Found>, AccountFacts) -> bool, trace: Trace) {
    slots.first.Some? || slots.second.Some? ==>
      && AccountsFit(h, ledger, amount, trace.metadataAt, trace.custodyAt)
      && accept(slots, FactsAt(h, ledger, trace.metadataAt))
  }

  /**
   What a steady node leaves to refuse an observation for. The bracket opened on the newest tip. A scan that fails is
   that failure; otherwise the answer is accepted exactly when the bracket closed and the accounts of what was found
   fit and are acceptable, and a refusal says which it was.
   */
  ghost predicate Determined<T>(h: History, ledger: Ledger, amount: nat, now: nat, later: nat,
                                classify: Classifier<Found>, exact: bool, window: Window,
                                accept: (Slots<Found>, AccountFacts) -> bool, r: Result<T, ObservationError>,
                                trace: Trace) {
    var b, scan := trace.bracket, Ordered(AtomicScan(GENESIS, classify, exact, window, trace.bracket.pinned));
    && Opened(h, now, later, b)
    && (scan.Err? ==> r == Err(scan.error))
    && (scan.Ok? ==>
          Concluded(h, ledger, amount, TipOf(b.pinned[|b.pinned| - 1]), scan.value, accept, r, trace))
  }

  /** The bracket opened on a tip that was seen during the call. */
  ghost predicate Opened(h: History, now: nat, later: nat, b: Bracket) {
    && b.pinned != []
    && SeesTip(GENESIS, h, now, later, Sighting(b.heightAt, b.pinnedAt), TipOf(b.pinned[|b.pinned| - 1]), b.pinned)
  }

  /** Accepted exactly when the bracket closed and what was found fits; refused for the one or the other. */
  ghost predicate Concluded<T>(h: History, ledger: Ledger, amount: nat, tip: ChainTip, slots: Slots<Found>,
                               accept: (Slots<Found>, AccountFacts) -> bool, r: Result<T, ObservationError>,
                               trace: Trace) {
    var closes := EqualTipCloses(GENESIS, h, tip, trace.bracket.closing);
    var fits := FoundFits(h, ledger, amount, slots, accept, trace);
    && (r.Ok? <==> closes && fits)
    && (r.Err? ==> (r.error == TipMoved && !closes) || (r.error == InvalidObservation && !fits))
  }

  /** The first half of an observation: a pinned tip and the scan of its window. */
  method PinAndScan(genesisHash: BlockHash, h: History, fails: Outages, now: nat, classify: Classifier<Found>,
                    exact: bool, window: Window)
    returns (r: Result<(ChainTip, Slots<Found>), ObservationError>, later: nat, ghost b: Bracket)
    requires ValidHistory(GENESIS, genesisHash, h)
    ensures now <= b.heightAt <= b.pinnedAt <= later
    ensures r.Ok? ==>
              && Pins(GENESIS, h, b.pinnedAt, r.value.0, b.pinned) && |h(b.heightAt)| == |b.pinned|
              && InOrder(r.value.1)
              && Scan(ItemsOf(classify, ReadBlocks(h(later), window, r.value.0.height)),
                      if exact then InvalidObservation else Ambiguous) == Ok(r.value.1)
    ensures Steady(h, fails) && Hashed(h) ==>
              var scan := Ordered(AtomicScan(GENESIS, classify, exact, window, b.pinned));
              && Opened(h, now, later, b)
              && (r.Ok? ==> r.value.0 == TipOf(b.pinned[|b.pinned| - 1]))
              && (r.Ok? <==> scan.Ok?) && (r.Ok? ==> scan.value == r.value.1) && (r.Err? ==> scan == Err(r.error))
  {
    ghost var heightAt, pinned;
    var tip, t;
    tip, t, heightAt, pinned := ReadTip(genesisHash, h, fails, now);
    b := Bracket(heightAt, t, pinned, Sighting(t, t));
    if tip.Err? { return Err(tip.error), t, b; }
    PinEndsAtTip(GENESIS, genesisHash, h, t, tip.value, pinned);
    var scanned;
    scanned, later := ScanWindow(genesisHash, h, fails, t, classify, exact, window, tip.value);
    if AppendOnly(h) {
      assert Extends(h, t, later);
      ReadBlocksArePinned(pinned, h(later), window, tip.value.height);
    }
    if scanned.Err? { return Err(scanned.error), later, b; }
    return Ok((tip.value, scanned.value)), later, b;
  }

  /** The second half: the accounts of what was found, and the same tip again, for an exact claim twice. */
  method CloseBracket(genesisHash: BlockHash, h: History, fails: Outages, ledger: Ledger, now: nat, amount: nat,
                      tip: ChainTip, slots: Slots<Found>, twice: bool, accept: (Slots<Found>, AccountFacts) -> bool,
                      ghost b: Bracket)
    returns (r: Result<Option<AccountFacts>, ObservationError>, later: nat, ghost trace: Trace)
    requires ValidHistory(GENESIS, genesisHash, h) && b.pinnedAt <= now
    ensures later >= now && trace.bracket == b.(closing := trace.bracket.closing)
    ensures r.Ok? ==>
              && now <= trace.metadataAt <= trace.custodyAt <= trace.bracket.closing.heightAt
              && trace.bracket.closing.heightAt <= trace.bracket.closing.blockAt <= later
              && EqualTipCloses(GENESIS, h, tip, trace.bracket.closing)
              && (r.value.Some? <==> slots.first.Some? || slots.second.Some?)
    ensures r.Ok? && r.value.Some? ==>
              && AccountsAre(h, ledger, amount, r.value.value, trace.metadataAt, trace.custodyAt)
              && accept(slots, r.value.value)
    ensures Steady(h, fails) && Hashed(h) ==> Concluded(h, ledger, amount, tip, slots, accept, r, trace)
  {
    ghost var s;
    trace := Trace(b, now, now);
    var v := now;
    if twice {
      var same;
      same, v, s := CloseTip(genesisHash, h, fails, now, tip);
      trace := Trace(b.(closing := s), v, v);
      if same.Err? { return Err(same.error), v, trace; }
    }
    var facts: Option<AccountFacts> := None;
    ghost var metadataAt := v;
    if slots.first.Some? || slots.second.Some? {
      var read;
      read, v, metadataAt := ReadAccounts(h, fails, ledger, v, amount);
      trace := Trace(trace.bracket, metadataAt, v);
      if read.Err? { return Err(read.error), v, trace; }
      if !accept(slots, read.value) { return Err(InvalidObservation), v, trace; }
      facts := Some(read.value);
    }
    var closed;
    closed, later, s := CloseTip(genesisHash, h, fails, v, tip);
    trace := Trace(b.(closing := s), metadataAt, v);
    if closed.Err? { return Err(closed.error), later, trace; }
    return Ok(facts), later, trace;
  }

  /**
   The v0.1.2 observation of a pair or a claim: pin a tip, scan the hash-checked range, read the accounts of
   what was found, and require the same tip again; the exact claim scan requires it once more in between. An
   accepted answer is the atomic answer on the pinned chain, with its accounts read inside the bracket; a steady
   node's chain is refused for nothing but what `Determined` says.
   */
  method ObserveBracketed(genesisHash: BlockHash, h: History, fails: Outages, ledger: Ledger, now: nat, amount: nat,
                          classify: Classifier<Found>, exact: bool,
                          window: Window, twice: bool, accept: (Slots<Found>, AccountFacts) -> bool)
    returns (r: Result<Observation, ObservationError>, later: nat, ghost trace: Trace)
    requires ValidHistory(GENESIS, genesisHash, h)
    ensures later >= now
    ensures r.Ok? ==> now <= trace.bracket.heightAt && trace.bracket.closing.blockAt <= later
    ensures r.Ok? ==> Accepted(h, classify, exact, window, r.value, trace.bracket)
    ensures r.Ok? ==> (r.value.facts.Some? <==> r.value.first.FoundAt? || r.value.second.FoundAt?)
    ensures r.Ok? && r.value.facts.Some? ==>
              accept(r.value.slots, r.value.facts.value) && FactsInside(h, ledger, amount, r.value.facts.value, trace)
    ensures Steady(h, fails) && Hashed(h) ==>
            Determined(h, ledger, amount, now, later, classify, exact, window, accept, r, trace)
  {
    ghost var b;
    var scanned, u;
    scanned, u, b := PinAndScan(genesisHash, h, fails, now, classify, exact, window);
    trace := Trace(b, u, u);
    if scanned.Err? { return Err(scanned.error), u, trace; }
    var (tip, slots) := scanned.value;
    var closed, w;
    closed, w, trace := CloseBracket(genesisHash, h, fails, ledger, u, amount, tip, slots, twice, accept, b);
    if closed.Err? { return Err(closed.error), w, trace; }
    ReportIsAccepted(genesisHash, h, ledger, amount, classify, exact, window, tip, slots, closed.value, trace, u);
    return Ok(Report(tip, slots, exact, window, closed.value)), w, trace;
  }

  /** What is reported from reads inside a closed bracket is the atomic answer, and its accounts extend the pin. */
  lemma ReportIsAccepted(genesisHash: BlockHash, h: History, ledger: Ledger, amount: nat, classify: Classifier<Found>,
                         exact: bool, window: Window, tip: ChainTip, slots: Slots<Found>, facts: Option<AccountFacts>,
                         trace: Trace, t: nat)
    requires ValidHistory(GENESIS, genesisHash, h) && Closed(h, tip, trace.bracket) && InOrder(slots)
    requires trace.bracket.pinnedAt <= t <= trace.metadataAt <= trace.custodyAt <= trace.bracket.closing.heightAt
    requires Scan(ItemsOf(classify, ReadBlocks(h(t), window, tip.height)),
                  if exact then InvalidObservation else Ambiguous) == Ok(slots)
    requires facts.Some? ==> AccountsAre(h, ledger, amount, facts.value, trace.metadataAt, trace.custodyAt)
    requires facts.Some? <==> slots.first.Some? || slots.second.Some?
    ensures var o := Report(tip, slots, exact, window, facts);
            && Accepted(h, classify, exact, window, o, trace.bracket)
            && o.slots == slots && o.facts == facts
            && (facts.Some? <==> o.first.FoundAt? || o.second.FoundAt?)
    ensures facts.Some? ==> FactsInside(h, ledger, amount, facts.value, trace)
  {
    ScanIsAtomic(genesisHash, h, classify, exact, window, tip, trace.bracket, t);
    BracketHolds(genesisHash, h, tip, trace.bracket, trace.metadataAt);
    BracketHolds(genesisHash, h, tip, trace.bracket, trace.custodyAt);
  }
}
