/**
 The finalized refund observer of v0.2. It pins a finalized tip, reads every block and every historical
 account at its own later instant, and at the end requires a linked finalized path from the pinned tip
 to the newest one. `Observe` is the same observation made of one chain with nothing moving.
 */
module RefundObservation {
  import opened Wrappers
  import opened Nssa
  import opened Canonical
  import opened Chain
  import opened Scanning
  import V2 = EscrowObservation

  type EscrowStatus = V2.EscrowStatus
  const GENESIS: nat := V2.GENESIS

  /** The finalized chain over time, the instants at which reads fail, and what chains do to the escrow's accounts. */
  datatype Indexer = Indexer(h: History, fails: nat -> bool, ledger: V2.Ledger)

  ghost predicate Valid(ix: Indexer, genesisHash: BlockHash) { ValidHistory(GENESIS, genesisHash, ix.h) }

  /** An indexer that answers every read and only ever extends the finalized chain. */
  ghost predicate Ideal(ix: Indexer) { AppendOnly(ix.h) && forall t: nat :: !ix.fails(t) }

  datatype Target = StateOnly | Exact(window: Window) | DiscoverByTerms(window: Window)

  datatype FoundRefund = FoundRefund(position: Position, timestamp: nat, public: PublicTransaction)

  datatype Refund = NotRequested | Searched(verdict: Verdict)

  datatype Observation = Observation(clock: Block, status: EscrowStatus, refund: Refund)

  /**
   Whether this sidecar may observe a refund of these terms this way: its own lock, or the counterparty's by
   terms.
   */
  predicate MayObserve(role: Participant, signer: AccountId, terms: Terms, target: Target) {
    && (target.DiscoverByTerms? ==>
          terms.claimant == role && terms.depositor != role && terms.claimantAccount == signer)
    && (!target.DiscoverByTerms? ==> terms.depositor == role && terms.depositorAccount == signer)
  }

  // ----- The observation of one chain -------------------------------------------------------------

  /** What the indexer says beside a public transaction: its hash, and whether a proof is attached. */
  datatype Label = Label(hash: TransactionId, proof: bool)

  /**
   What the observer is asked: the escrow, how to look, the refund it owns, and how the indexer labels
   transactions.
   */
  datatype Query = Query(program: ProgramId, escrow: V2.EscrowTerms, target: Target, owned: Option<Prepared>,
                         labelled: PublicTransaction -> Label) {
    const terms: Terms := escrow.terms

    /** The hash the indexer gives for a transaction. */
    function HashIn(transaction: Transaction): TransactionId {
      match transaction
      case Private(hash) => hash
      case Public(public) => labelled(public).hash
    }
    /** The authority of witnessed terms is the account of their aggregate key. */
    predicate AuthorityOk() { escrow.Witnessed? ==> escrow.authority == KeyAccount(escrow.aggregateKey) }
    function Wanted(): Option<Prepared> { if target.Exact? then owned else None }
    function Duplicate(): ObservationError { if target.Exact? then InvalidObservation else Ambiguous }
  }

  /** The body of the loop of `scan_refund`, for one transaction. */
  function Classify(q: Query, block: Block, index: nat): Classified<FoundRefund> {
    if index >= |block.transactions| then Skip
    else
      var transaction := block.transactions[index];
      if q.target.Exact? && (q.owned.None? || q.HashIn(transaction) != q.owned.value.id) then Skip
      else if transaction.Private? then if q.target.Exact? then Fail(InvalidObservation) else Skip
      else
        var public := transaction.public;
        var found := First(FoundRefund(Position(block.hash, block.height, index), block.timestamp, public));
        if q.target.Exact? then found
        else if public.message.program != q.program || public.message.instruction != RefundNative(q.terms.swapId)
            then Skip
        else if public.message.accounts != RefundMessage(q.program, q.terms).accounts then Fail(Conflicting)
        else found
  }

  function RefundClassifier(q: Query): Classifier<FoundRefund> {
    (block: Block, index: nat) => Classify(q, block, index)
  }

  /** `read_accounts` of the state after a chain: bound to the terms, past funding, with the balance of its status. */
  function Accounts(ledger: V2.Ledger, amount: nat, chain: Blocks, wanted: Option<EscrowStatus>): Result<EscrowStatus,
      ObservationError> {
    AccountsFrom(ledger.metadata(chain), ledger.balance(chain), amount, wanted)
  }

  function AccountsFrom(metadata: V2.Metadata, balance: nat, amount: nat,
                        wanted: Option<EscrowStatus>): Result<EscrowStatus, ObservationError> {
    if metadata.status == V2.Empty || (wanted.Some? && wanted.value != metadata.status) || !metadata.bound
       || balance != V2.ExpectedBalance(metadata.status, amount)
    then Err(InvalidObservation)
    else Ok(metadata.status)
  }

  /**
   `validate_refund`: truly labelled, not early, unsigned, the canonical message, and the owned bytes if
   there are any.
   */
  function ValidateRefund(q: Query, found: FoundRefund): Result<Found, ObservationError> {
    if q.labelled(found.public) != Label(HashOf(found.public), false) then Err(InvalidObservation)
    else if found.timestamp < q.terms.refundAt || found.public.witnesses != [] then Err(InvalidObservation)
    else if found.public.message != RefundMessage(q.program, q.terms)
        then Err(if q.target.Exact? then InvalidObservation else Conflicting)
    else if q.Wanted().Some? && q.Wanted().value != PreparedFrom(found.public) then Err(InvalidObservation)
    else Ok(Found(PreparedFrom(found.public), found.position, found.public.message.accounts))
  }

  function ScanWindow(q: Query, window: Window, pinned: Blocks): Result<Slots<FoundRefund>, ObservationError> {
    if window.0 < GENESIS || GENESIS + |pinned| <= window.0 then Err(Unavailable)
    else Scan(ItemsOf(RefundClassifier(q), WindowBlocks(GENESIS, pinned, window)), q.Duplicate())
  }

  /** The chain up to and including a height. */
  function UpTo(chain: Blocks, height: nat): Blocks {
    if GENESIS <= height < GENESIS + |chain| then chain[..height - GENESIS + 1] else chain
  }

  /** A search's verdict and the status the tip's accounts must then have. */
  function Search(q: Query, ledger: V2.Ledger, window: Window, pinned: Blocks): Result<(Refund, Option<EscrowStatus>),
      ObservationError> {
    match ScanWindow(q, window, pinned)
    case Err(e) => Err(e)
    case Ok(slots) =>
      match slots.first
      case None => Ok((Searched(if Covers(GENESIS, pinned, window) then Absent else UnknownOrPending), None))
      case Some(found) =>
        match Accounts(ledger, q.terms.amount, UpTo(pinned, found.position.height), Some(V2.Refunded))
        case Err(e) => Err(e)
        case Ok(_) =>
          match ValidateRefund(q, found)
          case Err(e) => Err(e)
          case Ok(facts) => Ok((Searched(FoundAt(facts)), Some(V2.Refunded)))
  }

  /** `observe_refund`; `funded` says that an exact request already saw a funded tip. */
  function Refunds(q: Query, ledger: V2.Ledger, funded: bool, pinned: Blocks): Result<(Refund, Option<EscrowStatus>),
      ObservationError> {
    match q.target
    case StateOnly => Ok((NotRequested, None))
    case Exact(window) => if funded then Ok((Searched(UnknownOrPending), None)) else Search(q, ledger, window, pinned)
    case DiscoverByTerms(window) => Search(q, ledger, window, pinned)
  }

  /** Whether an exact request may skip its search because the tip's accounts are still funded. */
  function Shortcut(q: Query, ledger: V2.Ledger, pinned: Blocks): Result<bool, ObservationError> {
    if !q.target.Exact? then Ok(false)
    else
      match Accounts(ledger, q.terms.amount, pinned, None)
      case Err(e) => Err(e)
      case Ok(status) => Ok(status == V2.Funded)
  }

  /** The whole observation of one chain, given whether its search was skipped. */
  function Conclude(q: Query, ledger: V2.Ledger, funded: bool, pinned: Blocks): Result<Observation, ObservationError>
    requires pinned != []
  {
    var tip := pinned[|pinned| - 1];
    match Refunds(q, ledger, funded, pinned)
    case Err(e) => Err(e)
    case Ok((refund, terminal)) =>
      match Accounts(ledger, q.terms.amount, pinned, terminal)
      case Err(e) => Err(e)
      case Ok(status) =>
        if status == V2.Refunded && tip.timestamp < q.terms.refundAt then Err(InvalidObservation)
        else Ok(Observation(tip, status, refund))
  }

  function Observe(q: Query, ledger: V2.Ledger, pinned: Blocks): Result<Observation, ObservationError>
    requires pinned != []
  {
    match Shortcut(q, ledger, pinned)
    case Err(e) => Err(e)
    case Ok(funded) => Conclude(q, ledger, funded, pinned)
  }

  // ----- What the accounts and a found transaction must be --------------------------------------------

  /** The accounts after a chain: bound to the terms, past funding, and holding what their status says. */
  ghost predicate Settled(ledger: V2.Ledger, amount: nat, chain: Blocks, status: EscrowStatus) {
    && ledger.metadata(chain) == V2.Metadata(status, true) && status != V2.Empty
    && V2.CustodyFits(status, amount, ledger.balance(chain))
  }

  lemma AccountsMean(ledger: V2.Ledger, amount: nat, chain: Blocks, wanted: Option<EscrowStatus>, status: EscrowStatus)
    ensures Accounts(ledger, amount, chain, wanted) == Ok(status) <==>
            Settled(ledger, amount, chain, status) && (wanted.Some? ==> status == wanted.value)
    ensures Accounts(ledger, amount, chain, wanted).Err? ==>
            Accounts(ledger, amount, chain, wanted).error == InvalidObservation
  {
  }

  /** The one canonical, unsigned, truly labelled refund of the terms, no earlier than they allow. */
  ghost predicate TrueRefund(q: Query, found: FoundRefund) {
    && IsRefund(found.public.message, q.program, q.terms) && found.public.witnesses == []
    && q.labelled(found.public).hash == HashOf(found.public) && !q.labelled(found.public).proof
    && found.timestamp >= q.terms.refundAt
    && (q.target.Exact? && q.owned.Some? ==>
          q.owned.value == Prepared(HashOf(found.public), Encoded(found.public)))
  }

  lemma ValidRefundMeans(q: Query, found: FoundRefund)
    ensures ValidateRefund(q, found).Ok? <==> TrueRefund(q, found)
    ensures TrueRefund(q, found) ==>
              ValidateRefund(q, found).value
                  == Found(Prepared(HashOf(found.public), Encoded(found.public)), found.position,
                           found.public.message.accounts)
    ensures ValidateRefund(q, found).Err? ==>
              ValidateRefund(q, found).error
                  == if !q.target.Exact? && q.labelled(found.public) == Label(HashOf(found.public), false)
                        && found.timestamp >= q.terms.refundAt && found.public.witnesses == []
                     then Conflicting else InvalidObservation
  {
    RefundMessageSays(found.public.message, q.program, q.terms);
  }

  // ----- What the observation means ----------------------------------------------------------------

  /** Some transaction at a height of the window is one this query would find. */
  ghost predicate Matches(q: Query, window: Window, pinned: Blocks, found: FoundRefund) {
    Occurs(GENESIS, RefundClassifier(q), window, pinned, First(found))
  }

  /**
   A search that ends answers from the window's unique match: found means that match, canonical and not
   early, with the escrow refunded right after its block; absent means a covered window without a match.
   */
  lemma SearchMeans(q: Query, ledger: V2.Ledger, window: Window, pinned: Blocks, found: FoundRefund)
    requires Search(q, ledger, window, pinned).Ok?
    ensures var refund := Search(q, ledger, window, pinned).value.0;
            && refund.Searched?
            && (Matches(q, window, pinned, found) ==>
                  && TrueRefund(q, found)
                  && refund.verdict == FoundAt(Found(Prepared(HashOf(found.public), Encoded(found.public)),
                                                     found.position, found.public.message.accounts))
                  && Settled(ledger, q.terms.amount, UpTo(pinned, found.position.height), V2.Refunded))
            && (refund.verdict.FoundAt? ==>
                exists f :: Matches(q, window, pinned, f) && ValidateRefund(q, f) == Ok(refund.verdict.found))
            && (!refund.verdict.FoundAt? ==> (refund.verdict == Absent <==> Covers(GENESIS, pinned, window)))
  {
    FirstIsTheMatch(GENESIS, RefundClassifier(q), window, pinned, q.Duplicate(), found);
    FirstOccurs(GENESIS, RefundClassifier(q), window, pinned, q.Duplicate());
    ValidRefundMeans(q, found);
    AccountsMean(ledger, q.terms.amount, UpTo(pinned, found.position.height), Some(V2.Refunded), V2.Refunded);
  }

  /**
   An accepted observation of a linked chain, in terms of the chain and the accounts: the tip's accounts are
   settled, and a refunded escrow's tip is not early. A found refund stands in the window, true and at its own
   position, and the escrow is refunded and empty right after its block and at the tip.
   */
  lemma ObservationMeans(q: Query, ledger: V2.Ledger, genesisHash: BlockHash, pinned: Blocks)
    requires Linked(GENESIS, genesisHash, pinned) && Observe(q, ledger, pinned).Ok?
    ensures var o := Observe(q, ledger, pinned).value;
            && o.clock == pinned[|pinned| - 1] && Settled(ledger, q.terms.amount, pinned, o.status)
            && (o.status == V2.Refunded ==> o.clock.timestamp >= q.terms.refundAt)
            && (o.refund.NotRequested? <==> q.target.StateOnly?)
            && (o.refund.Searched? && o.refund.verdict.FoundAt? ==>
                  && o.status == V2.Refunded
                  && exists i: nat, j: nat, public ::
                       RefundStands(q, ledger, pinned, o.refund.verdict.found, i, j, public))
  {
    var o := Observe(q, ledger, pinned).value;
    AccountsMean(ledger, q.terms.amount, pinned, None, o.status);
    AccountsMean(ledger, q.terms.amount, pinned, Some(V2.Refunded), o.status);
    if o.refund.Searched? && o.refund.verdict.FoundAt? { SearchedRefundStands(q, ledger, genesisHash, pinned); }
  }

  /** The true refund at an index of the block at an offset, inside the window, and the accounts right after it. */
  ghost predicate RefundStands(q: Query, ledger: V2.Ledger, pinned: Blocks, found: Found, i: nat, j: nat,
                               public: PublicTransaction) {
    && !q.target.StateOnly? && i < |pinned|
    && q.target.window.0 <= GENESIS + i < q.target.window.0 + q.target.window.1
    && j < |pinned[i].transactions| && pinned[i].transactions[j] == Public(public)
    && IsRefund(public.message, q.program, q.terms) && public.witnesses == []
    && pinned[i].timestamp >= q.terms.refundAt
    && found == Found(Prepared(HashOf(public), Encoded(public)), Position(pinned[i].hash, GENESIS + i, j),
                      public.message.accounts)
    && (q.target.Exact? && q.owned.Some? ==> found.prepared == q.owned.value)
    && ledger.metadata(pinned[..i + 1]) == V2.Metadata(V2.Refunded, true) && ledger.balance(pinned[..i + 1]) == 0
  }

  /** What the scan finds in a block of a linked chain is a transaction of that block, at its height and time. */
  lemma MatchIsThere(q: Query, genesisHash: BlockHash, pinned: Blocks, found: FoundRefund, i: nat, j: nat)
    requires Linked(GENESIS, genesisHash, pinned) && i < |pinned| && j < |pinned[i].transactions|
    requires RefundClassifier(q)(pinned[i], j) == First(found)
    ensures pinned[i].transactions[j] == Public(found.public) && found.timestamp == pinned[i].timestamp
    ensures found.position == Position(pinned[i].hash, GENESIS + i, j)
    ensures UpTo(pinned, found.position.height) == pinned[..i + 1]
  {
    assert Classify(q, pinned[i], j) == First(found);
  }

  lemma SearchedRefundStands(q: Query, ledger: V2.Ledger, genesisHash: BlockHash, pinned: Blocks)
    requires Linked(GENESIS, genesisHash, pinned) && !q.target.StateOnly?
    requires Search(q, ledger, q.target.window, pinned).Ok?
    requires Search(q, ledger, q.target.window, pinned).value.0.verdict.FoundAt?
    ensures exists i: nat, j: nat, public ::
              RefundStands(q, ledger, pinned, Search(q, ledger, q.target.window, pinned).value.0.verdict.found, i, j,
                           public)
  {
    var window, classify := q.target.window, RefundClassifier(q);
    var found := ScanWindow(q, window, pinned).value.first.value;
    FirstOccurs(GENESIS, classify, window, pinned, q.Duplicate());
    var i: nat, j: nat :| i < |pinned| && window.0 <= GENESIS + i < window.0 + window.1
                          && j < |pinned[i].transactions| && classify(pinned[i], j) == First(found);
    MatchIsThere(q, genesisHash, pinned, found, i, j);
    ValidRefundMeans(q, found);
    AccountsMean(ledger, q.terms.amount, pinned[..i + 1], Some(V2.Refunded), V2.Refunded);
    assert RefundStands(q, ledger, pinned, ValidateRefund(q, found).value, i, j, found.public);
  }

  /**
   What a query looks at: an exact one at the transaction the indexer labels with the owned id, a discovering one
   at the program's refunds of the swap, which conflict if their accounts are not the canonical ones.
   */
  lemma CandidatesMean(q: Query, block: Block, i: nat)
    requires i < |block.transactions|
    ensures q.target.Exact? ==>
              var listed := q.owned.Some? && q.HashIn(block.transactions[i]) == q.owned.value.id;
              && (Classify(q, block, i).First? <==> listed && block.transactions[i].Public?)
              && (Classify(q, block, i).Fail? <==> listed && block.transactions[i].Private?)
    ensures !q.target.Exact? ==>
              var ours := block.transactions[i].Public?
                          && block.transactions[i].public.message.program == q.program
                          && block.transactions[i].public.message.instruction == RefundNative(q.terms.swapId);
              && (ours && block.transactions[i].public.message.nonces == [] ==>
                    (Classify(q, block, i).First? <==>
                     IsRefund(block.transactions[i].public.message, q.program, q.terms)))
              && (Classify(q, block, i).First? || Classify(q, block, i) == Fail(Conflicting) <==> ours)
              && (Classify(q, block, i) == Skip <==> !ours)
    ensures !Classify(q, block, i).Second?
  {
    if block.transactions[i].Public? {
      RefundMessageSays(block.transactions[i].public.message, q.program, q.terms);
    }
  }

  /** Two matches, where nothing fails to classify, are invalid for an exact query and ambiguous for a discovery. */
  lemma TwoMatchesAreReported(q: Query, ledger: V2.Ledger, window: Window, pinned: Blocks)
    requires GENESIS <= window.0 < GENESIS + |pinned|
    requires !Unambiguous(ItemsOf(RefundClassifier(q), WindowBlocks(GENESIS, pinned, window)))
    requires forall error :: Fail(error) !in ItemsOf(RefundClassifier(q), WindowBlocks(GENESIS, pinned, window))
    ensures q.target.Exact? ==> Search(q, ledger, window, pinned) == Err(InvalidObservation)
    ensures !q.target.Exact? ==> Search(q, ledger, window, pinned) == Err(Ambiguous)
  {
    var items := ItemsOf(RefundClassifier(q), WindowBlocks(GENESIS, pinned, window));
    ScanFindsUniqueMatches(items, q.Duplicate());
    var error := Scan(items, q.Duplicate()).error;
    if error != q.Duplicate() { NoSuchError(items, q.Duplicate(), error); }
  }

  /** A search ends exactly on a window that starts on the chain and has no match but one that is true and settled. */
  lemma SearchEnds(q: Query, ledger: V2.Ledger, window: Window, pinned: Blocks)
    ensures Search(q, ledger, window, pinned).Ok? <==>
              && GENESIS <= window.0 < GENESIS + |pinned|
              && Unambiguous(ItemsOf(RefundClassifier(q), WindowBlocks(GENESIS, pinned, window)))
              && forall found :: Matches(q, window, pinned, found) ==>
                   TrueRefund(q, found)
                   && Settled(ledger, q.terms.amount, UpTo(pinned, found.position.height), V2.Refunded)
  {
    ScanFindsUniqueMatches(ItemsOf(RefundClassifier(q), WindowBlocks(GENESIS, pinned, window)), q.Duplicate());
    if ScanWindow(q, window, pinned).Ok? {
      FirstOccurs(GENESIS, RefundClassifier(q), window, pinned, q.Duplicate());
      forall found ensures Matches(q, window, pinned, found) <==>
                           ScanWindow(q, window, pinned).value.first == Some(found) {
        FirstIsTheMatch(GENESIS, RefundClassifier(q), window, pinned, q.Duplicate(), found);
      }
      if ScanWindow(q, window, pinned).value.first.Some? {
        var found := ScanWindow(q, window, pinned).value.first.value;
        ValidRefundMeans(q, found);
        AccountsMean(ledger, q.terms.amount, UpTo(pinned, found.position.height), Some(V2.Refunded), V2.Refunded);
      }
    }
  }

  /**
   An observation is accepted exactly when the tip's accounts are settled, a refunded tip is not early, and the
   search, unless none was asked for or an exact one sees a funded tip, ends, with a refunded tip if it found one.
   */
  lemma ObservationEnds(q: Query, ledger: V2.Ledger, pinned: Blocks, status: EscrowStatus)
    requires pinned != []
    ensures Observe(q, ledger, pinned).Ok? && Observe(q, ledger, pinned).value.status == status <==>
              && Settled(ledger, q.terms.amount, pinned, status)
              && (status == V2.Refunded ==> pinned[|pinned| - 1].timestamp >= q.terms.refundAt)
              && (!q.target.StateOnly? && !(q.target.Exact? && status == V2.Funded) ==>
                    var search := Search(q, ledger, q.target.window, pinned);
                    search.Ok? && (search.value.0.verdict.FoundAt? ==> status == V2.Refunded))
    ensures q.target.Exact? && Observe(q, ledger, pinned).Ok?
            && Observe(q, ledger, pinned).value.status == V2.Funded ==>
              Observe(q, ledger, pinned).value.refund == Searched(UnknownOrPending)
  {
    AccountsMean(ledger, q.terms.amount, pinned, None, status);
    AccountsMean(ledger, q.terms.amount, pinned, None, V2.Funded);
    AccountsMean(ledger, q.terms.amount, pinned, Some(V2.Refunded), status);
  }

  /** Refunds end an escrow, and a chain that holds the owned refund's transaction has refunded it. */
  ghost predicate RefundsAreFinal(q: Query, ledger: V2.Ledger, pinned: Blocks) {
    && (forall i: nat :: i <= |pinned| && ledger.metadata(pinned[..i]).status == V2.Refunded ==>
        ledger.metadata(pinned).status == V2.Refunded)
    && (forall i: nat, j: nat ::
          (i < |pinned| && j < |pinned[i].transactions| && q.owned.Some?
           && q.HashIn(pinned[i].transactions[j]) == q.owned.value.id) ==>
          ledger.metadata(pinned[..i + 1]).status == V2.Refunded)
  }

  /**
   The shortcut for a funded tip hides no refund. Without it the search could only have ended in an
   error or without a refund; and where refunds are final it would have ended without one, unless the
   window starts beyond the chain. All the shortcut gives up is saying absent.
   */
  lemma ShortcutHidesNoRefund(q: Query, ledger: V2.Ledger, pinned: Blocks)
    requires pinned != [] && q.target.Exact?
    ensures Shortcut(q, ledger, pinned) == Ok(false) ==>
            Observe(q, ledger, pinned) == Conclude(q, ledger, false, pinned)
    ensures Shortcut(q, ledger, pinned) == Ok(true) ==>
              var full := Conclude(q, ledger, false, pinned);
              && Observe(q, ledger, pinned) == Ok(Observation(pinned[|pinned| - 1], V2.Funded,
                                                              Searched(UnknownOrPending)))
              && (full.Ok? ==>
                  full.value.status == V2.Funded && full.value.refund.Searched? && !full.value.refund.verdict.FoundAt?)
              && (RefundsAreFinal(q, ledger, pinned) ==>
                    (full.Ok? <==> GENESIS <= q.target.window.0 < GENESIS + |pinned|)
                        && (full.Err? ==> full.error == Unavailable))
  {
    if Shortcut(q, ledger, pinned) == Ok(true) && RefundsAreFinal(q, ledger, pinned) {
      FundedMeansNoItems(q, ledger, pinned);
    }
  }

  lemma FundedMeansNoItems(q: Query, ledger: V2.Ledger, pinned: Blocks)
    requires q.target.Exact? && RefundsAreFinal(q, ledger, pinned) && ledger.metadata(pinned).status == V2.Funded
    ensures var window := q.target.window;
            GENESIS <= window.0 < GENESIS + |pinned| ==> ScanWindow(q, window, pinned) == Ok(Slots(None, None))
  {
    var classify, blocks := RefundClassifier(q), WindowBlocks(GENESIS, pinned, q.target.window);
    var items := ItemsOf(classify, blocks);
    forall k | 0 <= k < |items| ensures items[k] == Skip {
      ItemsAreTransactions(classify, blocks, items[k]);
      var b: nat, j: nat :| b < |blocks| && j < |blocks[b].transactions| && classify(blocks[b], j) == items[k];
      var i := FirstHeight(GENESIS, q.target.window) - GENESIS + b;
      assert blocks[b] == pinned[i];
      assert q.owned.Some? ==> q.HashIn(pinned[i].transactions[j]) != q.owned.value.id;
    }
    SkipsFindNothing(items, q.Duplicate());
  }

  lemma {:induction false} SkipsFindNothing<F>(items: seq<Classified<F>>, duplicate: ObservationError)
    requires forall k :: 0 <= k < |items| ==> items[k] == Skip
    ensures Scan(items, duplicate) == Ok(Slots(None, None))
    decreases |items|
  {
    if items != [] { SkipsFindNothing(items[..|items| - 1], duplicate); }
  }
}
