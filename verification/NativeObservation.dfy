/**
 The v0.1.2 observers of a pair, a claim and a refund, each with its own admission, its own owned
 transactions, its classifier and what it asks of the accounts, all in one equal-tip bracket.
 */
module NativeObservation {
  import opened Wrappers
  import opened Nssa
  import opened Planner
  import opened Chain
  import opened Scanning
  import opened TipBracket
  import Refunds = RefundObservation
  import V2 = EscrowObservation

  // ----- Admission and ownership --------------------------------------------------------------------

  /** The identity checks every request passes before its role and signer are looked at. */
  predicate Admits(config: Config, runtime: Runtime, terms: Terms) {
    runtime == config.runtime && terms.transferProgram == AUTHENTICATED_TRANSFER
  }

  datatype PairTarget = ExactPair(initialization: TransactionId, funding: TransactionId) | AnyPair(window: Window)
  datatype ClaimTarget = ExactClaim(claim: TransactionId) | AnyClaim(window: Window)
  datatype RefundTarget = NoRefund | ExactRefund(refund: TransactionId, window: Window) | AnyRefund(window: Window)

  predicate MayObservePair(config: Config, runtime: Runtime, terms: Terms, target: PairTarget) {
    && Admits(config, runtime, terms)
    && (target.ExactPair? ==> terms.depositor == config.role && terms.depositorAccount == KeyAccount(config.key))
    && (target.AnyPair? ==>
          && terms.claimant == config.role && terms.depositor != config.role
          && terms.claimantAccount == KeyAccount(config.key))
  }

  predicate MayObserveClaim(config: Config, runtime: Runtime, terms: Terms, target: ClaimTarget) {
    && Admits(config, runtime, terms)
    && (target.ExactClaim? ==> terms.claimant == config.role && terms.claimantAccount == KeyAccount(config.key))
    && (target.AnyClaim? ==>
          && terms.depositor == config.role && terms.claimant != config.role
          && terms.depositorAccount == KeyAccount(config.key))
  }

  predicate MayObserveRefund(config: Config, runtime: Runtime, terms: RefundTerms, target: RefundTarget) {
    && Admits(config, runtime, terms.terms) && terms.Hashlock?
    && (target.AnyRefund? ==>
          && terms.terms.claimant == config.role && terms.terms.depositor != config.role
          && terms.terms.claimantAccount == KeyAccount(config.key))
    && (!target.AnyRefund? ==>
          terms.terms.depositor == config.role && terms.terms.depositorAccount == KeyAccount(config.key))
  }

  /** The identity and party checks of a request, in the source's order. */
  method CheckParty(config: Config, runtime: Runtime, terms: Terms, own: bool, party: Participant, account: AccountId,
                    other: Participant)
    returns (ok: bool)
    ensures ok <==>
              && runtime == config.runtime && terms.transferProgram == AUTHENTICATED_TRANSFER
              && party == config.role && account == KeyAccount(config.key) && (own || other != config.role)
  {
    if runtime != config.runtime || terms.transferProgram != AUTHENTICATED_TRANSFER { return false; }
    if party != config.role || account != config.Signer() { return false; }
    return own || other != config.role;
  }

  /** `owned_native_pair`: the held pair of these terms, under exactly these two ids. */
  function OwnedPair(planner: PlannerState, runtime: Runtime, terms: Terms, initialization: TransactionId,
                     funding: TransactionId)
    : (r: Option<(Prepared, Prepared)>)
    ensures r.Some? ==>
            r.value.0 in Held(planner) && r.value.1 in Held(planner) && r.value.0.id == initialization
                && r.value.1.id == funding
    ensures r.Some? <==>
              && planner.native.Some? && planner.native.value.request.runtime == runtime
              && planner.native.value.request.terms == terms
              && planner.native.value.result.initialization.id == initialization
              && planner.native.value.result.funding.id == funding
  {
    if planner.native.None? then None
    else
      var active := planner.native.value;
      if active.request.runtime != runtime || active.request.terms != terms
         || active.result.initialization.id != initialization || active.result.funding.id != funding
      then None
      else Some((active.result.initialization, active.result.funding))
  }

  /** `owned_revealing_claim`: the held claim of these terms, under exactly this id. */
  function OwnedClaim(planner: PlannerState, terms: Terms, claim: TransactionId): (r: Option<Prepared>)
    ensures r.Some? ==> r.value in Held(planner) && r.value.id == claim
    ensures r.Some? <==>
              && planner.claim.Some? && planner.claim.value.terms == terms
              && planner.claim.value.result.claim.id == claim && planner.claim.value.fundingId != 0
  {
    if planner.claim.None? then None
    else
      var active := planner.claim.value;
      if active.terms != terms || active.result.claim.id != claim
          || active.fundingId == 0 then None else Some(active.result.claim)
  }

  /** `owned_native_refund`: the held refund of these terms, under exactly this id. */
  function OwnedRefund(planner: PlannerState, runtime: Runtime, terms: RefundTerms,
                       refund: TransactionId): (r: Option<Prepared>)
    ensures r.Some? ==> r.value in Held(planner) && r.value.id == refund
    ensures r.Some? <==>
              && planner.refund.Some? && planner.refund.value.request.runtime == runtime
              && planner.refund.value.request.terms == terms && planner.refund.value.result.refund.id == refund
  {
    if planner.refund.None? then None
    else
      var active := planner.refund.value;
      if active.request.runtime != runtime || active.request.terms != terms
          || active.result.refund.id != refund then None
      else Some(active.result.refund)
  }

  // ----- Windows of exact targets ---------------------------------------------------------------------

  /** The newest window of a tip read for it, for a target without a window of its own. */
  method ChooseNewest(genesisHash: BlockHash, h: History, fails: Outages, now: nat)
    returns (r: Result<Window, ObservationError>, later: nat, ghost s: Sighting, ghost tip: ChainTip,
             ghost chain: Blocks)
    requires ValidHistory(GENESIS, genesisHash, h)
    ensures later >= now
    ensures r.Ok? ==>
            SeesTip(GENESIS, h, now, later, s, tip, chain) && r.value == NewestWindow(GENESIS, tip.height)
    ensures Steady(h, fails) && Hashed(h) ==> r.Ok?
  {
    ghost var heightAt;
    var read;
    tip := ChainTip(genesisHash, GENESIS);
    read, later, heightAt, chain := TipBracket.ReadTip(genesisHash, h, fails, now);
    s := Sighting(heightAt, later);
    if read.Err? { return Err(read.error), later, s, tip, chain; }
    tip := read.value;
    assert Steady(h, fails) ==> |h(later)| <= U64_MAX;
    var window := NewestWindow(GENESIS, read.value.height);
    if !WindowOk(window.0, window.1) { return Err(InvalidObservation), later, s, tip, chain; }
    return Ok(window), later, s, tip, chain;
  }

  /** What an observation rests on: the window, the tip it was chosen for if it was, and the bracket. */
  datatype Basis = Basis(window: Window, chosen: Sighting, chosenTip: ChainTip, chosenChain: Blocks, trace: Trace)

  ghost function NoBasis(genesisHash: BlockHash, now: nat): Basis {
    var s := Sighting(now, now);
    Basis((0, 1), s, ChainTip(genesisHash, GENESIS), [], Trace(Bracket(now, now, [], s), now, now))
  }

  /** A bracket that opened and closed during the call. */
  ghost predicate Within(now: nat, later: nat, b: Bracket) { now <= b.heightAt && b.closing.blockAt <= later }

  /**
   The bracket lies inside the call. The window is the requested one, or the newest one of a tip that was seen
   during the call, before the bracket opened.
   */
  ghost predicate Grounded(h: History, now: nat, later: nat, requested: Option<Window>, basis: Basis) {
    Within(now, later, basis.trace.bracket) && Chosen(h, now, requested, basis)
  }

  ghost predicate Chosen(h: History, now: nat, requested: Option<Window>, basis: Basis) {
    if requested.Some? then basis.window == requested.value
    else
      && SeesTip(GENESIS, h, now, basis.trace.bracket.heightAt, basis.chosen, basis.chosenTip, basis.chosenChain)
      && basis.window == NewestWindow(GENESIS, basis.chosenTip.height)
  }

  // ----- The observers --------------------------------------------------------------------------------

  /**
   `observe_native_escrow_core`. An accepted answer has the verdicts of one scan of the pinned chain for the
   owned pair or for any pair of the terms, and a found funding an escrow that is not empty. Whoever may ask is
   refused, over a steady node, for nothing but what `Determined` says.
   */
  method ObservePair(genesisHash: BlockHash, h: History, fails: Outages, ledger: Ledger, now: nat, config: Config,
                     planner: PlannerState,
                     runtime: Runtime, terms: Terms, target: PairTarget)
    returns (r: Result<Observation, ObservationError>, later: nat, ghost basis: Basis)
    requires ValidHistory(GENESIS, genesisHash, h)
    ensures later >= now
    ensures r.Ok? ==>
              var owned := if target.ExactPair? then OwnedPair(planner, runtime, terms, target.initialization,
                                                               target.funding) else None;
              && MayObservePair(config, runtime, terms, target) && (target.ExactPair? ==> owned.Some?)
              && Grounded(h, now, later, if target.AnyPair? then Some(target.window) else None, basis)
              && Accepted(h, PairClassifier(config.escrowProgram, terms, owned), target.ExactPair?, basis.window,
                          r.value, basis.trace.bracket)
    ensures r.Ok? ==> (r.value.facts.Some? <==> r.value.first.FoundAt? || r.value.second.FoundAt?)
    ensures r.Ok? && r.value.facts.Some? ==>
              && FactsInside(h, ledger, terms.amount, r.value.facts.value, basis.trace)
              && r.value.facts.value.EscrowAccounts? && (r.value.second.FoundAt? ==>
                                                         r.value.facts.value.status != V2.Empty)
    ensures var owned := if target.ExactPair? then OwnedPair(planner, runtime, terms, target.initialization,
                                                             target.funding) else None;
            var admitted := MayObservePair(config, runtime, terms, target) && (target.ExactPair? ==> owned.Some?);
            && (!admitted ==> r == Err(PlannerRefused))
            && (admitted && Steady(h, fails) && Hashed(h) ==>
                  && Chosen(h, now, if target.AnyPair? then Some(target.window) else None, basis)
                  && Determined(h, ledger, terms.amount, now, later,
                                PairClassifier(config.escrowProgram, terms, owned), target.ExactPair?, basis.window,
                                (slots: Slots<Found>, facts: AccountFacts) =>
                                  facts.EscrowAccounts? && (slots.second.Some? ==> facts.status != V2.Empty),
                                r, basis.trace))
  {
    basis := NoBasis(genesisHash, now);
    var ok := CheckParty(config, runtime, terms, target.ExactPair?,
                         if target.ExactPair? then terms.depositor else terms.claimant,
                         if target.ExactPair? then terms.depositorAccount else terms.claimantAccount, terms.depositor);
    if !ok { return Err(PlannerRefused), now, basis; }
    var window, t := Ok((0, 1)), now;
    var owned: Option<(Prepared, Prepared)> := None;
    ghost var s, tip, chain := basis.chosen, basis.chosenTip, [];
    if target.ExactPair? {
      owned := OwnedPair(planner, runtime, terms, target.initialization, target.funding);
      if owned.None? { return Err(PlannerRefused), now, basis; }
      window, t, s, tip, chain := ChooseNewest(genesisHash, h, fails, now);
      if window.Err? { return Err(window.error), t, basis; }
    } else {
      window := Ok(target.window);
    }
    ghost var trace;
    r, later, trace := ObserveBracketed(genesisHash, h, fails, ledger, t, terms.amount,
                                        PairClassifier(config.escrowProgram, terms, owned),
                                        target.ExactPair?, window.value, false,
                                            (slots, facts) => PairAccounts(slots, facts));
    basis := Basis(window.value, s, tip, chain, trace);
  }

  /**
   `observe_revealing_claim_core`. An accepted answer has the verdict of one scan of the pinned chain for the
   owned claim or for any claim of the terms, and a found claim a claimed, emptied escrow. Whoever may ask is
   refused, over a steady node, for nothing but what `Determined` says.
   */
  method ObserveClaim(genesisHash: BlockHash, h: History, fails: Outages, ledger: Ledger, now: nat, config: Config,
                      planner: PlannerState,
                      runtime: Runtime, terms: Terms, target: ClaimTarget)
    returns (r: Result<Observation, ObservationError>, later: nat, ghost basis: Basis)
    requires ValidHistory(GENESIS, genesisHash, h)
    ensures later >= now
    ensures r.Ok? ==>
              var owned := if target.ExactClaim? then OwnedClaim(planner, terms, target.claim) else None;
              && MayObserveClaim(config, runtime, terms, target) && (target.ExactClaim? ==> owned.Some?)
              && Grounded(h, now, later, if target.AnyClaim? then Some(target.window) else None, basis)
              && Accepted(h, if owned.Some? then ExactClassifier(owned.value)
                          else ClaimClassifier(config.escrowProgram, terms),
                          target.ExactClaim?, basis.window, r.value, basis.trace.bracket)
    ensures r.Ok? && (r.value.first.FoundAt? || r.value.second.FoundAt?) ==>
              && r.value.facts == Some(EscrowAccounts(V2.Claimed))
              && FactsInside(h, ledger, terms.amount, r.value.facts.value, basis.trace)
    ensures var owned := if target.ExactClaim? then OwnedClaim(planner, terms, target.claim) else None;
            var admitted := MayObserveClaim(config, runtime, terms, target) && (target.ExactClaim? ==> owned.Some?);
            && (!admitted ==> r == Err(PlannerRefused))
            && (admitted && Steady(h, fails) && Hashed(h) ==>
                  && Chosen(h, now, if target.AnyClaim? then Some(target.window) else None, basis)
                  && Determined(h, ledger, terms.amount, now, later,
                                if owned.Some? then ExactClassifier(owned.value)
                                else ClaimClassifier(config.escrowProgram, terms),
                                target.ExactClaim?, basis.window,
                                (slots: Slots<Found>, facts: AccountFacts) => facts == EscrowAccounts(V2.Claimed),
                                r, basis.trace))
  {
    basis := NoBasis(genesisHash, now);
    var ok := CheckParty(config, runtime, terms, target.ExactClaim?,
                         if target.ExactClaim? then terms.claimant else terms.depositor,
                         if target.ExactClaim? then terms.claimantAccount else terms.depositorAccount, terms.claimant);
    if !ok { return Err(PlannerRefused), now, basis; }
    var window, t := Ok((0, 1)), now;
    var classify := ClaimClassifier(config.escrowProgram, terms);
    ghost var s, tip, chain := basis.chosen, basis.chosenTip, [];
    if target.ExactClaim? {
      var owned := OwnedClaim(planner, terms, target.claim);
      if owned.None? { return Err(PlannerRefused), now, basis; }
      classify := ExactClassifier(owned.value);
      window, t, s, tip, chain := ChooseNewest(genesisHash, h, fails, now);
      if window.Err? { return Err(window.error), t, basis; }
    } else {
      window := Ok(target.window);
    }
    ghost var trace;
    r, later, trace := ObserveBracketed(genesisHash, h, fails, ledger, t, terms.amount, classify, target.ExactClaim?,
                                        window.value,
                                        target.ExactClaim?, (slots, facts) => ClaimAccounts(slots, facts));
    basis := Basis(window.value, s, tip, chain, trace);
  }

  datatype RefundObservation = RefundObservation(tip: ChainTip, facts: AccountFacts, refund: Refunds.Refund)

  /** What a steady node leaves to refuse a refund for: the accounts, the scan, what it found, and the closing tip. */
  ghost function RefundCheck(h: History, ledger: Ledger, amount: nat, classify: Classifier<Found>, exact: bool,
                             requested: Option<Window>, trace: Trace): Option<ObservationError>
    requires trace.bracket.pinned != []
  {
    var pinned := trace.bracket.pinned;
    var closing := if EqualTipCloses(GENESIS, h, TipOf(pinned[|pinned| - 1]), trace.bracket.closing) then None
                   else Some(TipMoved);
    var search := SearchCheck(classify, exact, requested, pinned, FactsAt(h, ledger, trace.metadataAt));
    if !AccountsFit(h, ledger, amount, trace.metadataAt, trace.custodyAt) then Some(InvalidObservation)
    else if search.Some? then search else closing
  }

  /** A search fails as its scan does, or for a refund found in an escrow that is not refunded. */
  ghost function SearchCheck(classify: Classifier<Found>, exact: bool, requested: Option<Window>, pinned: Blocks,
                             facts: AccountFacts): Option<ObservationError> {
    if requested.None? then None
    else
      var scan := Ordered(AtomicScan(GENESIS, classify, exact, requested.value, pinned));
      if scan.Err? then Some(scan.error)
      else if scan.value.first.Some? && facts != EscrowAccounts(V2.Refunded) then Some(InvalidObservation)
      else None
  }

  /** The verdict of one scan of the pinned chain, if one was asked for, and accounts read inside a closed bracket. */
  ghost predicate RefundObserved(h: History, ledger: Ledger, now: nat, later: nat, amount: nat,
                                 classify: Classifier<Found>, exact: bool, requested: Option<Window>,
                                 o: RefundObservation, trace: Trace) {
    && Within(now, later, trace.bracket) && Closed(h, o.tip, trace.bracket)
    && FactsInside(h, ledger, amount, o.facts, trace)
    && (requested.None? <==> o.refund == Refunds.NotRequested)
    && (requested.Some? ==>
          var atomic := AtomicVerdicts(GENESIS, classify, exact, requested.value, trace.bracket.pinned);
          atomic.Ok? && o.refund == Refunds.Searched(atomic.value.0))
    && (o.refund.Searched? && o.refund.verdict.FoundAt? ==> o.facts == EscrowAccounts(V2.Refunded))
  }

  /** The opening of a refund observation: a pinned tip, and the accounts after it. */
  method PinAndRead(genesisHash: BlockHash, h: History, fails: Outages, ledger: Ledger, now: nat, amount: nat)
    returns (r: Result<(ChainTip, AccountFacts), ObservationError>, later: nat, ghost trace: Trace)
    requires ValidHistory(GENESIS, genesisHash, h)
    ensures now <= trace.bracket.heightAt <= trace.bracket.pinnedAt <= trace.metadataAt <= trace.custodyAt == later
    ensures r.Ok? ==>
              && Pins(GENESIS, h, trace.bracket.pinnedAt, r.value.0, trace.bracket.pinned)
              && |h(trace.bracket.heightAt)| == |trace.bracket.pinned|
              && AccountsAre(h, ledger, amount, r.value.1, trace.metadataAt, later)
    ensures Steady(h, fails) && Hashed(h) ==>
              var b := trace.bracket;
              && Opened(h, now, later, b)
              && r == if AccountsFit(h, ledger, amount, trace.metadataAt, later)
                      then Ok((TipOf(b.pinned[|b.pinned| - 1]), FactsAt(h, ledger, trace.metadataAt)))
                      else Err(InvalidObservation)
  {
    ghost var heightAt, pinned, metadataAt;
    var tip, t, facts;
    tip, t, heightAt, pinned := TipBracket.ReadTip(genesisHash, h, fails, now);
    trace := Trace(Bracket(heightAt, t, pinned, Sighting(t, t)), t, t);
    if tip.Err? { return Err(tip.error), t, trace; }
    PinEndsAtTip(GENESIS, genesisHash, h, t, tip.value, pinned);
    facts, later, metadataAt := ReadAccounts(h, fails, ledger, t, amount);
    trace := Trace(trace.bracket, metadataAt, later);
    if facts.Err? { return Err(facts.error), later, trace; }
    return Ok((tip.value, facts.value)), later, trace;
  }

  /** The search of a refund observation, if one was asked for, against the accounts already read. */
  method SearchReturn(genesisHash: BlockHash, h: History, fails: Outages, now: nat, classify: Classifier<Found>,
                      exact: bool, requested: Option<Window>, tip: ChainTip, facts: AccountFacts, ghost pinnedAt: nat,
                      ghost pinned: Blocks)
    returns (r: Result<Slots<Found>, ObservationError>, later: nat)
    requires ValidHistory(GENESIS, genesisHash, h) && pinnedAt <= now && Pins(GENESIS, h, pinnedAt, tip, pinned)
    ensures later >= now
    ensures r.Ok? && requested.Some? ==>
              && InOrder(r.value) && RefundAccounts(r.value, facts)
              && Scan(ItemsOf(classify, ReadBlocks(h(later), requested.value, tip.height)),
                      if exact then InvalidObservation else Ambiguous) == Ok(r.value)
    ensures Steady(h, fails) && Hashed(h) ==> V2.Agrees(r, SearchCheck(classify, exact, requested, pinned, facts))
  {
    if requested.None? { return Ok(Slots(None, None)), now; }
    assert AppendOnly(h) ==> Extends(h, pinnedAt, now);
    r, later := TipBracket.ScanWindow(genesisHash, h, fails, now, classify, exact, requested.value, tip);
    if AppendOnly(h) {
      assert Extends(h, pinnedAt, later);
      ReadBlocksArePinned(pinned, h(later), requested.value, tip.height);
    }
    if r.Ok? && !RefundAccounts(r.value, facts) { r := Err(InvalidObservation); }
  }

  /** An admitted observation: the accounts first and always, then the search, and the same tip again. */
  method ObserveReturn(genesisHash: BlockHash, h: History, fails: Outages, ledger: Ledger, now: nat, amount: nat,
                       classify: Classifier<Found>, exact: bool, requested: Option<Window>)
    returns (r: Result<RefundObservation, ObservationError>, later: nat, ghost trace: Trace)
    requires ValidHistory(GENESIS, genesisHash, h)
    ensures later >= now
    ensures r.Ok? ==> RefundObserved(h, ledger, now, later, amount, classify, exact, requested, r.value, trace)
    ensures Steady(h, fails) && Hashed(h) ==>
              var b := trace.bracket;
              && Opened(h, now, later, b)
              && V2.Agrees(r, RefundCheck(h, ledger, amount, classify, exact, requested, trace))
  {
    ghost var s;
    var read, u;
    read, u, trace := PinAndRead(genesisHash, h, fails, ledger, now, amount);
    if read.Err? { return Err(read.error), u, trace; }
    var (tip, facts) := read.value;
    var searched, v := SearchReturn(genesisHash, h, fails, u, classify, exact, requested, tip, facts,
                                    trace.bracket.pinnedAt, trace.bracket.pinned);
    if searched.Err? { return Err(searched.error), v, trace; }
    var closed;
    closed, later, s := CloseTip(genesisHash, h, fails, v, tip);
    trace := trace.(bracket := trace.bracket.(closing := s));
    if closed.Err? { return Err(closed.error), later, trace; }
    RefundIsObserved(genesisHash, h, ledger, now, later, amount, classify, exact, requested, tip, searched.value, facts,
                     trace, v);
    return Ok(RefundReport(tip, searched.value, exact, requested, facts)), later, trace;
  }

  function RefundReport(tip: ChainTip, slots: Slots<Found>, exact: bool, requested: Option<Window>,
                        facts: AccountFacts): RefundObservation {
    RefundObservation(tip, facts,
                      if requested.None? then Refunds.NotRequested
                      else Refunds.Searched(Report(tip, slots, exact, requested.value, Some(facts)).first))
  }

  /** What is reported from reads inside a closed bracket is what the pinned chain says. */
  lemma RefundIsObserved(genesisHash: BlockHash, h: History, ledger: Ledger, now: nat, later: nat, amount: nat,
                         classify: Classifier<Found>, exact: bool, requested: Option<Window>, tip: ChainTip,
                         slots: Slots<Found>, facts: AccountFacts, trace: Trace, t: nat)
    requires ValidHistory(GENESIS, genesisHash, h) && Closed(h, tip, trace.bracket) && Within(now, later, trace.bracket)
    requires trace.bracket.pinnedAt <= trace.metadataAt <= trace.custodyAt <= t <= trace.bracket.closing.heightAt
    requires AccountsAre(h, ledger, amount, facts, trace.metadataAt, trace.custodyAt)
    requires requested.Some? ==>
               && InOrder(slots) && RefundAccounts(slots, facts)
               && Scan(ItemsOf(classify, ReadBlocks(h(t), requested.value, tip.height)),
                       if exact then InvalidObservation else Ambiguous) == Ok(slots)
    ensures RefundObserved(h, ledger, now, later, amount, classify, exact, requested,
                           RefundReport(tip, slots, exact, requested, facts), trace)
  {
    BracketHolds(genesisHash, h, tip, trace.bracket, trace.metadataAt);
    BracketHolds(genesisHash, h, tip, trace.bracket, trace.custodyAt);
    if requested.Some? {
      ScanIsAtomic(genesisHash, h, classify, exact, requested.value, tip, trace.bracket, t);
    }
  }

  function WindowOf(target: RefundTarget): Option<Window> { if target.NoRefund? then None else Some(target.window) }

  /**
   `observe_native_refund_core`: the accounts are read first and always, then the refund is searched for, and
   the tip is required again. An accepted answer has the verdict of one scan of the pinned chain, accounts read
   inside the bracket, and for a found refund a refunded, emptied escrow. Whoever may ask is refused, over a steady
   node, for nothing but what `RefundCheck` says.
   */
  method ObserveRefund(genesisHash: BlockHash, h: History, fails: Outages, ledger: Ledger, now: nat, config: Config,
                       planner: PlannerState,
                       runtime: Runtime, terms: RefundTerms, target: RefundTarget)
    returns (r: Result<RefundObservation, ObservationError>, later: nat, ghost trace: Trace)
    requires ValidHistory(GENESIS, genesisHash, h)
    ensures later >= now
    ensures var owned := if target.ExactRefund? then OwnedRefund(planner, runtime, terms, target.refund) else None;
            var admitted := MayObserveRefund(config, runtime, terms, target) && (target.ExactRefund? ==> owned.Some?);
            var classify := RefundClassifier(config.escrowProgram, terms.terms, owned);
            var requested := if target.NoRefund? then None else Some(target.window);
            && (!admitted ==> r == Err(PlannerRefused))
            && (r.Ok? ==> RefundObserved(h, ledger, now, later, terms.terms.amount, classify, target.ExactRefund?,
                                         requested, r.value, trace))
            && (admitted && Steady(h, fails) && Hashed(h) ==>
                  var b := trace.bracket;
                  && Opened(h, now, later, b)
                  && V2.Agrees(r, RefundCheck(h, ledger, terms.terms.amount, classify, target.ExactRefund?, requested,
                                              trace)))
  {
    trace := NoBasis(genesisHash, now).trace;
    var ok := CheckParty(config, runtime, terms.terms, !target.AnyRefund?,
                         if target.AnyRefund? then terms.terms.claimant else terms.terms.depositor,
                         if target.AnyRefund? then terms.terms.claimantAccount else terms.terms.depositorAccount,
                         terms.terms.depositor);
    if !ok || terms.Witnessed? { return Err(PlannerRefused), now, trace; }
    var owned: Option<Prepared> := None;
    if target.ExactRefund? {
      owned := OwnedRefund(planner, runtime, terms, target.refund);
      if owned.None? { return Err(PlannerRefused), now, trace; }
    }
    r, later, trace := ObserveReturn(genesisHash, h, fails, ledger, now, terms.terms.amount,
                                     RefundClassifier(config.escrowProgram, terms.terms, owned), target.ExactRefund?,
                                     WindowOf(target));
  }
}
