/**
 The finalized refund observer at work while the finalized chain moves, proved against the observation of one
 chain.
 */
module RefundObserver {
  import opened Wrappers
  import opened Nssa
  import opened Chain
  import opened Scanning
  import opened RefundObservation
  import V2 = EscrowObservation

  // ----- The pinned chain --------------------------------------------------------------------------

  /** The pinned tip, the instants its height and its block were read at, and the chain it ends. */
  datatype Pin = Pin(tip: Block, heightAt: nat, at: nat, pinned: Blocks)

  ghost predicate PinOk(ix: Indexer, pin: Pin) {
    && Pins(GENESIS, ix.h, pin.at, TipOf(pin.tip), pin.pinned)
    && pin.pinned[|pin.pinned| - 1] == pin.tip
  }

  /** The pinned tip was the newest finalized one when its height was read. */
  ghost predicate PinnedNewest(ix: Indexer, from: nat, upTo: nat, pin: Pin) {
    && PinOk(ix, pin)
    && SeesTip(GENESIS, ix.h, from, upTo, Sighting(pin.heightAt, pin.at), TipOf(pin.tip), pin.pinned)
  }

  /** The pinned tip is finalized at some instant from `later` on. */
  ghost predicate Confirmed(ix: Indexer, pin: Pin, later: nat) {
    exists v: nat :: v >= later && StillCanonical(GENESIS, ix.h, v, TipOf(pin.tip))
  }

  /** Once confirmed, every instant before began with the pinned chain. */
  lemma PinHolds(ix: Indexer, genesisHash: BlockHash, pin: Pin, u: nat, later: nat)
    requires Valid(ix, genesisHash) && PinOk(ix, pin) && pin.at <= u <= later && Confirmed(ix, pin, later)
    ensures pin.pinned <= ix.h(u)
  {
    var v: nat :| v >= later && StillCanonical(GENESIS, ix.h, v, TipOf(pin.tip));
    PinnedBetween(GENESIS, genesisHash, ix.h, pin.at, u, v, TipOf(pin.tip), pin.pinned);
  }

  lemma IdealConfirms(ix: Indexer, pin: Pin, later: nat)
    requires PinOk(ix, pin) && AppendOnly(ix.h) && pin.at <= later
    ensures Confirmed(ix, pin, later) && pin.pinned <= ix.h(later)
  {
    assert Extends(ix.h, pin.at, later);
    assert StillCanonical(GENESIS, ix.h, later, TipOf(pin.tip));
  }

  // ----- Reads -------------------------------------------------------------------------------------

  method LastFinalized(ix: Indexer, genesisHash: BlockHash, now: nat)
      returns (r: Result<nat, ObservationError>, later: nat)
    requires Valid(ix, genesisHash)
    ensures later >= now
    ensures r == Err(Unavailable) || (ix.h(later) != [] && r == Ok(TipHeight(GENESIS, ix.h(later))))
    ensures Ideal(ix) ==> r.Ok?
  {
    later := Later(now);
    if ix.fails(later) { return Err(Unavailable), later; }
    assert Linked(GENESIS, genesisHash, ix.h(later));
    return Ok(TipHeight(GENESIS, ix.h(later))), later;
  }

  /**
   A finalized block by id and again by hash. An index may hold an unfinalized block at the id, and may
   or may not still know a block by its hash once it is no longer canonical.
   */
  method ReadFinalizedBlock(ix: Indexer, genesisHash: BlockHash, now: nat, id: nat)
    returns (r: Result<Block, ObservationError>, later: nat, ghost at: nat)
    requires Valid(ix, genesisHash)
    ensures now <= at <= later && (r.Err? ==> r.error == Unavailable || r.error == InvalidObservation)
    ensures r.Ok? ==> At(GENESIS, ix.h(at), id) == Some(r.value)
    ensures id < GENESIS ==> r == Err(Unavailable)
    ensures (forall t: nat :: now <= t <= later ==> At(GENESIS, ix.h(t), id).Some?) ==> r != Err(InvalidObservation)
    ensures Ideal(ix) && GENESIS <= id < GENESIS + |ix.h(now)| ==> r.Ok?
  {
    var t := Later(now);
    at := t;
    if ix.fails(t) { return Err(Unavailable), t, t; }
    var byId := At(GENESIS, ix.h(t), id);
    assert Ideal(ix) ==> Extends(ix.h, now, t);
    if byId.None? {
      if id >= GENESIS {
        if * { return Err(InvalidObservation), t, t; }
      }
      return Err(Unavailable), t, t;
    }
    var u := Later(t);
    later := u;
    if ix.fails(u) { return Err(Unavailable), u, t; }
    var now' := At(GENESIS, ix.h(u), id);
    assert Ideal(ix) ==> Extends(ix.h, t, u);
    if now'.None? || now'.value.hash != byId.value.hash {
      if * { return Err(Unavailable), u, t; }
    }
    return Ok(byId.value), u, t;
  }

  /** A read below the pinned tip, if the pin is confirmed: the pinned chain's block, or nothing at all. */
  method ReadPinnedBlock(ix: Indexer, genesisHash: BlockHash, now: nat, id: nat, ghost pin: Pin)
    returns (r: Result<Block, ObservationError>, later: nat)
    requires Valid(ix, genesisHash) && PinOk(ix, pin) && pin.at <= now && id <= pin.tip.height
    ensures later >= now && (r.Err? ==> r.error == Unavailable || r.error == InvalidObservation)
    ensures id < GENESIS ==> r == Err(Unavailable)
    ensures id >= GENESIS && Confirmed(ix, pin, later) ==> r == Err(Unavailable) || r == Ok(pin.pinned[id - GENESIS])
    ensures id >= GENESIS && Ideal(ix) ==> r == Ok(pin.pinned[id - GENESIS])
  {
    ghost var at;
    r, later, at := ReadFinalizedBlock(ix, genesisHash, now, id);
    if Ideal(ix) {
      IdealConfirms(ix, pin, now);
      IdealConfirms(ix, pin, later);
    }
    if Confirmed(ix, pin, later) {
      forall t: nat | now <= t <= later ensures pin.pinned <= ix.h(t) {
        PinHolds(ix, genesisHash, pin, t, later);
      }
    }
  }

  /** Both accounts after the block at a height, each read at its own instant. */
  method ReadAccounts(ix: Indexer, genesisHash: BlockHash, now: nat, amount: nat, height: nat,
                      wanted: Option<EscrowStatus>, ghost pin: Pin)
    returns (r: Result<EscrowStatus, ObservationError>, later: nat)
    requires Valid(ix, genesisHash) && PinOk(ix, pin) && pin.at <= now && GENESIS <= height <= pin.tip.height
    ensures later >= now
    ensures Confirmed(ix, pin, later) ==>
            r == Err(Unavailable) || r == Accounts(ix.ledger, amount, UpTo(pin.pinned, height), wanted)
    ensures Ideal(ix) ==> r == Accounts(ix.ledger, amount, UpTo(pin.pinned, height), wanted)
  {
    var t := Later(now);
    later := Later(t);
    if Ideal(ix) { IdealConfirms(ix, pin, later); }
    if Confirmed(ix, pin, later) {
      PinHolds(ix, genesisHash, pin, t, later);
      PinHolds(ix, genesisHash, pin, later, later);
      assert UpTo(ix.h(t), height) == UpTo(pin.pinned, height) == UpTo(ix.h(later), height);
    }
    if ix.fails(t) || ix.fails(later) { return Err(Unavailable), later; }
    return AccountsFrom(ix.ledger.metadata(UpTo(ix.h(t), height)), ix.ledger.balance(UpTo(ix.h(later), height)), amount,
                        wanted), later;
  }

  // ----- The scan ----------------------------------------------------------------------------------

  lemma ConfirmedBefore(ix: Indexer, pin: Pin, t: nat, u: nat)
    requires t <= u && Confirmed(ix, pin, u)
    ensures Confirmed(ix, pin, t)
  {
  }

  /** A failed scan of the first blocks of a window is the failure of the whole. */
  lemma PrefixFails(q: Query, window: Window, pinned: Blocks, a: nat, b: nat, c: nat, error: ObservationError)
    requires pinned != [] && GENESIS + a == window.0 && a < b <= c
             && GENESIS + c == LastHeight(window, GENESIS + |pinned| - 1) + 1
    requires Scan(ItemsOf(RefundClassifier(q), Span(pinned, a, b)), q.Duplicate()) == Err(error)
    ensures ScanWindow(q, window, pinned) == Err(error)
  {
    WindowIsSpan(GENESIS, pinned, window, a, c);
    SpanPrefix(pinned, a, b, c);
    var part, blocks := Span(pinned, a, b), Span(pinned, a, c);
    ItemsPrefix(RefundClassifier(q), blocks, |part|);
    ScanStops(ItemsOf(RefundClassifier(q), part), ItemsOf(RefundClassifier(q), blocks), q.Duplicate());
  }

  /** One block of the scan: read, compared with the tip and its predecessor, and searched. */
  method ScanNext(ix: Indexer, genesisHash: BlockHash, q: Query, id: nat, tip: Block, previous: Option<Block>,
                  slots: Slots<FoundRefund>,
                  now: nat, ghost pin: Pin, ghost before: Blocks)
    returns (r: Result<(Block, Slots<FoundRefund>), ObservationError>, later: nat)
    requires Valid(ix, genesisHash) && PinOk(ix, pin) && pin.at <= now && GENESIS <= id <= tip.height && tip == pin.tip
    requires Scan(ItemsOf(RefundClassifier(q), before), q.Duplicate()) == Ok(slots)
    requires previous.Some? ==> id > GENESIS && before != []
    requires previous.Some? && Confirmed(ix, pin, now) ==> previous.value == pin.pinned[id - 1 - GENESIS]
    ensures later >= now
    ensures r.Ok? ==> Scan(ItemsOf(RefundClassifier(q), before + [r.value.0]), q.Duplicate()) == Ok(r.value.1)
    ensures Confirmed(ix, pin, later) && r.Ok? ==> r.value.0 == pin.pinned[id - GENESIS]
    ensures Confirmed(ix, pin, later) && r.Err? ==>
              r.error == Unavailable || Scan(ItemsOf(RefundClassifier(q), before + [pin.pinned[id - GENESIS]]),
                                             q.Duplicate()) == Err(r.error)
    ensures Ideal(ix) && r.Err? ==>
            Scan(ItemsOf(RefundClassifier(q), before + [pin.pinned[id - GENESIS]]), q.Duplicate()) == Err(r.error)
  {
    var block;
    block, later := ReadPinnedBlock(ix, genesisHash, now, id, pin);
    if Ideal(ix) { IdealConfirms(ix, pin, later); }
    if Confirmed(ix, pin, later) {
      ConfirmedBefore(ix, pin, now, later);
      PinIsLinked(ix, genesisHash, pin, id);
    }
    if block.Err? { return Err(block.error), later; }
    if id == tip.height && block.value != tip { return Err(TipMoved), later; }
    if previous.Some? && block.value.prev != previous.value.hash { return Err(InvalidObservation), later; }
    var scanned := ScanBlock(RefundClassifier(q), before, slots, block.value, q.Duplicate());
    if scanned.Err? { return Err(scanned.error), later; }
    return Ok((block.value, scanned.value)), later;
  }

  lemma PinIsLinked(ix: Indexer, genesisHash: BlockHash, pin: Pin, id: nat)
    requires Valid(ix, genesisHash) && PinOk(ix, pin) && GENESIS <= id <= pin.tip.height
    ensures pin.tip.height == TipHeight(GENESIS, pin.pinned) && pin.pinned[id - GENESIS].height == id
    ensures id > GENESIS ==> pin.pinned[id - GENESIS].prev == pin.pinned[id - 1 - GENESIS].hash
  {
    assert Linked(GENESIS, genesisHash, ix.h(pin.at));
  }

  /** `scan_refund`: every block at its own instant. A confirmed pin makes it the scan of the pinned window. */
  method ScanRefund(ix: Indexer, genesisHash: BlockHash, q: Query, window: Window, tip: Block, now: nat, ghost pin: Pin)
    returns (r: Result<Slots<FoundRefund>, ObservationError>, later: nat)
    requires Valid(ix, genesisHash) && PinOk(ix, pin) && pin.at <= now && tip == pin.tip
    ensures later >= now
    ensures Confirmed(ix, pin, later) ==> r == Err(Unavailable) || r == ScanWindow(q, window, pin.pinned)
    ensures Ideal(ix) ==> r == ScanWindow(q, window, pin.pinned)
  {
    if Ideal(ix) { IdealConfirms(ix, pin, now); }
    later := now;
    if tip.height < window.0 { return Err(Unavailable), now; }
    if window.0 < GENESIS {
      var missing;
      missing, later := ReadPinnedBlock(ix, genesisHash, now, window.0, pin);
      return Err(Unavailable), later;
    }
    r, later := ScanHeights(ix, genesisHash, q, window, tip, now, pin);
  }

  /** The blocks read from `start` up to `id` are the pinned chain's, if the pin is confirmed. */
  ghost predicate ReadSoFar(ix: Indexer, start: nat, id: nat, later: nat, pin: Pin, blocks: Blocks,
                            previous: Option<Block>)
    requires GENESIS <= start <= id <= GENESIS + |pin.pinned|
  {
    && (previous.Some? ==> id > start && blocks != [])
    && (Confirmed(ix, pin, later) ==> blocks == Span(pin.pinned, start - GENESIS, id - GENESIS))
    && (previous.Some? && Confirmed(ix, pin, later) ==> previous.value == pin.pinned[id - 1 - GENESIS])
  }

  /** A scan has read the blocks below `id` and filled its slots from them. */
  ghost predicate Scanned(ix: Indexer, q: Query, start: nat, id: nat, later: nat, pin: Pin, blocks: Blocks,
                          slots: Slots<FoundRefund>, previous: Option<Block>)
    requires GENESIS <= start <= id <= GENESIS + |pin.pinned|
  {
    && Scan(ItemsOf(RefundClassifier(q), blocks), q.Duplicate()) == Ok(slots)
    && ReadSoFar(ix, start, id, later, pin, blocks, previous)
  }

  /** Reading one more block of the pinned chain. */
  lemma ReadsOn(ix: Indexer, start: nat, id: nat, before: nat, later: nat, pin: Pin, blocks: Blocks,
                previous: Option<Block>, block: Block)
    requires GENESIS <= start <= id < GENESIS + |pin.pinned| && before <= later
    requires ReadSoFar(ix, start, id, before, pin, blocks, previous)
    requires Confirmed(ix, pin, later) ==> block == pin.pinned[id - GENESIS]
    ensures ReadSoFar(ix, start, id + 1, later, pin, blocks + [block], Some(block))
  {
    if Confirmed(ix, pin, later) {
      ConfirmedBefore(ix, pin, before, later);
      SpanGrows(pin.pinned, start - GENESIS, id - GENESIS);
    }
  }

  /** The same for the blocks read so far and the next one. */
  lemma NextFails(q: Query, window: Window, pinned: Blocks, a: nat, b: nat, c: nat, blocks: Blocks,
                  error: ObservationError)
    requires pinned != [] && GENESIS + a == window.0 && a <= b < c <= |pinned|
             && GENESIS + c == LastHeight(window, GENESIS + |pinned| - 1) + 1
    requires blocks == Span(pinned, a, b + 1) && Scan(ItemsOf(RefundClassifier(q), blocks), q.Duplicate()) == Err(error)
    ensures ScanWindow(q, window, pinned) == Err(error)
  {
    PrefixFails(q, window, pinned, a, b + 1, c, error);
  }

  lemma ScannedFails(ix: Indexer, q: Query, window: Window, id: nat, before: nat, later: nat, pin: Pin, blocks: Blocks,
                     slots: Slots<FoundRefund>,
                     previous: Option<Block>, error: ObservationError)
    requires PinOk(ix, pin) && GENESIS <= window.0 <= id <= LastHeight(window, pin.tip.height) && before <= later
    requires Scanned(ix, q, window.0, id, before, pin, blocks, slots, previous) && Confirmed(ix, pin, later)
    requires Scan(ItemsOf(RefundClassifier(q), blocks + [pin.pinned[id - GENESIS]]), q.Duplicate()) == Err(error)
    ensures ScanWindow(q, window, pin.pinned) == Err(error)
  {
    ConfirmedBefore(ix, pin, before, later);
    SpanGrows(pin.pinned, window.0 - GENESIS, id - GENESIS);
    NextFails(q, window, pin.pinned, window.0 - GENESIS, id - GENESIS,
              LastHeight(window, pin.tip.height) + 1 - GENESIS, blocks + [pin.pinned[id - GENESIS]], error);
  }

  lemma ScannedAll(ix: Indexer, q: Query, window: Window, later: nat, pin: Pin, blocks: Blocks,
                   slots: Slots<FoundRefund>, previous: Option<Block>)
    requires PinOk(ix, pin) && GENESIS <= window.0 <= pin.tip.height
    requires Scanned(ix, q, window.0, LastHeight(window, pin.tip.height) + 1, later, pin, blocks, slots, previous)
    ensures Confirmed(ix, pin, later) ==> ScanWindow(q, window, pin.pinned) == Ok(slots)
  {
    WindowIsSpan(GENESIS, pin.pinned, window, window.0 - GENESIS, LastHeight(window, pin.tip.height) + 1 - GENESIS);
  }

  /** One height of the scan, from what has been scanned below it. */
  method ScanHeight(ix: Indexer, genesisHash: BlockHash, q: Query, window: Window, id: nat, tip: Block,
                    previous: Option<Block>, slots: Slots<FoundRefund>,
                    now: nat, ghost pin: Pin, ghost blocks: Blocks)
    returns (r: Result<(Block, Slots<FoundRefund>), ObservationError>, later: nat)
    requires Valid(ix, genesisHash) && PinOk(ix, pin) && pin.at <= now && tip == pin.tip
    requires GENESIS <= window.0 <= id <= LastHeight(window, tip.height)
             && Scanned(ix, q, window.0, id, now, pin, blocks, slots, previous)
    ensures later >= now
    ensures r.Ok? ==> Scanned(ix, q, window.0, id + 1, later, pin, blocks + [r.value.0], r.value.1, Some(r.value.0))
    ensures r.Err? && Confirmed(ix, pin, later) ==>
            r.error == Unavailable || ScanWindow(q, window, pin.pinned) == Err(r.error)
    ensures r.Err? && Ideal(ix) ==> ScanWindow(q, window, pin.pinned) == Err(r.error)
  {
    r, later := ScanNext(ix, genesisHash, q, id, tip, previous, slots, now, pin, blocks);
    if r.Ok? {
      ReadsOn(ix, window.0, id, now, later, pin, blocks, previous, r.value.0);
    } else {
      if Ideal(ix) { IdealConfirms(ix, pin, later); }
      if Confirmed(ix, pin, later) && (Ideal(ix) || r.error != Unavailable) {
        ScannedFails(ix, q, window, id, now, later, pin, blocks, slots, previous, r.error);
      }
    }
  }

  method ScanHeights(ix: Indexer, genesisHash: BlockHash, q: Query, window: Window, tip: Block, now: nat,
                     ghost pin: Pin)
    returns (r: Result<Slots<FoundRefund>, ObservationError>, later: nat)
    requires Valid(ix, genesisHash) && PinOk(ix, pin) && pin.at <= now && tip == pin.tip
             && GENESIS <= window.0 <= tip.height
    ensures later >= now
    ensures Confirmed(ix, pin, later) ==> r == Err(Unavailable) || r == ScanWindow(q, window, pin.pinned)
    ensures Ideal(ix) ==> r == ScanWindow(q, window, pin.pinned)
  {
    later := now;
    var slots: Slots<FoundRefund> := Slots(None, None);
    var previous: Option<Block> := None;
    ghost var blocks: Blocks := [];
    for id := window.0 to LastHeight(window, tip.height) + 1
      invariant later >= now
      invariant Scanned(ix, q, window.0, id, later, pin, blocks, slots, previous)
    {
      var next;
      next, later := ScanHeight(ix, genesisHash, q, window, id, tip, previous, slots, later, pin, blocks);
      if next.Err? { return Err(next.error), later; }
      blocks, previous, slots := blocks + [next.value.0], Some(next.value.0), next.value.1;
    }
    ScannedAll(ix, q, window, later, pin, blocks, slots, previous);
    if Ideal(ix) { IdealConfirms(ix, pin, later); }
    return Ok(slots), later;
  }

  // ----- The search, and the observation -----------------------------------------------------------

  lemma FoundInside(ix: Indexer, genesisHash: BlockHash, q: Query, window: Window, pin: Pin)
    requires Valid(ix, genesisHash) && PinOk(ix, pin)
    requires ScanWindow(q, window, pin.pinned).Ok? && ScanWindow(q, window, pin.pinned).value.first.Some?
    ensures GENESIS <= ScanWindow(q, window, pin.pinned).value.first.value.position.height <= pin.tip.height
  {
    FirstOccurs(GENESIS, RefundClassifier(q), window, pin.pinned, q.Duplicate());
    var found := ScanWindow(q, window, pin.pinned).value.first.value;
    var i: nat, j: nat :| i < |pin.pinned| && j < |pin.pinned[i].transactions|
        && RefundClassifier(q)(pin.pinned[i], j) == First(found);
    assert Classify(q, pin.pinned[i], j) == First(found);
    PinIsLinked(ix, genesisHash, pin, GENESIS + i);
  }

  method SearchRefund(ix: Indexer, genesisHash: BlockHash, q: Query, window: Window, tip: Block, now: nat,
                      ghost pin: Pin)
    returns (r: Result<(Refund, Option<EscrowStatus>), ObservationError>, later: nat)
    requires Valid(ix, genesisHash) && PinOk(ix, pin) && pin.at <= now && tip == pin.tip
    ensures later >= now
    ensures Confirmed(ix, pin, later) && r.Ok? ==> r == Search(q, ix.ledger, window, pin.pinned)
    ensures Ideal(ix) ==> r == Search(q, ix.ledger, window, pin.pinned)
  {
    var scanned, t := ScanRefund(ix, genesisHash, q, window, tip, now, pin);
    later := t;
    if Ideal(ix) { IdealConfirms(ix, pin, t); }
    if scanned.Err? { return Err(scanned.error), t; }
    if scanned.value.first.None? {
      return Ok((Searched(if tip.height >= WindowEnd(window) then Absent else UnknownOrPending), None)), t;
    }
    var found := scanned.value.first.value;
    if Confirmed(ix, pin, t) { FoundInside(ix, genesisHash, q, window, pin); }
    if found.position.height < GENESIS || tip.height < found.position.height { return Err(Unavailable), t; }
    var accounts;
    accounts, later := ReadAccounts(ix, genesisHash, t, q.terms.amount, found.position.height, Some(V2.Refunded), pin);
    if Confirmed(ix, pin, later) { ConfirmedBefore(ix, pin, t, later); }
    if accounts.Err? { return Err(accounts.error), later; }
    var facts := ValidateRefund(q, found);
    if facts.Err? { return Err(facts.error), later; }
    return Ok((Searched(FoundAt(facts.value)), Some(V2.Refunded))), later;
  }

  method ObserveRefunds(ix: Indexer, genesisHash: BlockHash, q: Query, funded: bool, tip: Block, now: nat,
                        ghost pin: Pin)
    returns (r: Result<(Refund, Option<EscrowStatus>), ObservationError>, later: nat)
    requires Valid(ix, genesisHash) && PinOk(ix, pin) && pin.at <= now && tip == pin.tip
    ensures later >= now
    ensures Confirmed(ix, pin, later) && r.Ok? ==> r == Refunds(q, ix.ledger, funded, pin.pinned)
    ensures Ideal(ix) ==> r == Refunds(q, ix.ledger, funded, pin.pinned)
  {
    later := now;
    match q.target {
      case StateOnly => return Ok((NotRequested, None)), now;
      case Exact(window) =>
        if funded { return Ok((Searched(UnknownOrPending), None)), now; }
        r, later := SearchRefund(ix, genesisHash, q, window, tip, now, pin);
      case DiscoverByTerms(window) =>
        r, later := SearchRefund(ix, genesisHash, q, window, tip, now, pin);
    }
  }

  // ----- The closing check -------------------------------------------------------------------------

  /** Blocks whose heights and hashes follow one another. */
  ghost predicate Path(path: Blocks) {
    path != [] && forall i, j :: 0 <= i < j < |path| && j == i + 1 ==> Follows(path[i], path[j])
  }

  predicate Follows(parent: Block, child: Block) { child.height == parent.height + 1 && child.prev == parent.hash }

  ghost predicate FinalizedAt(ix: Indexer, block: Block, t: nat) { At(GENESIS, ix.h(t), block.height) == Some(block) }

  /** Every block of a path was finalized when it was read. */
  ghost predicate ReadAt(ix: Indexer, path: Blocks, times: seq<nat>) {
    |times| == |path| && forall i :: 0 <= i < |path| ==> FinalizedAt(ix, path[i], times[i])
  }

  /** The parent of a canonical block, whenever it was finalized, is canonical with it. */
  lemma ParentIsCanonical(ix: Indexer, genesisHash: BlockHash, parent: Block, u: nat, child: Block, t: nat)
    requires Valid(ix, genesisHash) && FinalizedAt(ix, parent, u) && FinalizedAt(ix, child, t)
    requires Follows(parent, child)
    ensures FinalizedAt(ix, parent, t)
  {
    assert Linked(GENESIS, genesisHash, ix.h(t)) && Linked(GENESIS, genesisHash, ix.h(u));
    var k := parent.height - GENESIS;
    assert SameHash(ix.h, t, u, k, k);
  }

  /** A linked path of once finalized blocks that ends in the chain of an instant lies on that chain. */
  lemma {:induction false} PathIsCanonical(ix: Indexer, genesisHash: BlockHash, path: Blocks, times: seq<nat>, t: nat,
                                           i: nat)
    requires Valid(ix, genesisHash) && Path(path) && ReadAt(ix, path, times) && i < |path|
    requires FinalizedAt(ix, path[|path| - 1], t)
    ensures FinalizedAt(ix, path[i], t)
    decreases |path| - i
  {
    if i + 1 < |path| {
      PathIsCanonical(ix, genesisHash, path, times, t, i + 1);
      ParentIsCanonical(ix, genesisHash, path[i], times[i], path[i + 1], t);
    }
  }

  /** On a chain that only grows, a block links to the block read one height below it. */
  lemma ReadsLink(ix: Indexer, genesisHash: BlockHash, parent: Block, u: nat, child: Block, t: nat)
    requires Valid(ix, genesisHash) && AppendOnly(ix.h) && FinalizedAt(ix, parent, u) && FinalizedAt(ix, child, t)
    requires child.height == parent.height + 1
    ensures child.prev == parent.hash
  {
    assert Extends(ix.h, t, u) && Extends(ix.h, u, t);
    assert Linked(GENESIS, genesisHash, ix.h(t));
  }

  lemma ReadHasHeight(ix: Indexer, genesisHash: BlockHash, block: Block, t: nat, id: nat)
    requires Valid(ix, genesisHash) && At(GENESIS, ix.h(t), id) == Some(block)
    ensures block.height == id && FinalizedAt(ix, block, t)
  {
    assert Linked(GENESIS, genesisHash, ix.h(t));
  }

  /** One descendant, linked to the block before it. */
  method ReadNext(ix: Indexer, genesisHash: BlockHash, previous: Block, now: nat, ghost previousAt: nat)
    returns (r: Result<Block, ObservationError>, later: nat, ghost at: nat)
    requires Valid(ix, genesisHash) && GENESIS <= previous.height && FinalizedAt(ix, previous, previousAt)
    ensures later >= now && at <= later && (r.Err? ==> r.error == Unavailable || r.error == InvalidObservation)
    ensures r.Ok? ==> FinalizedAt(ix, r.value, at) && Follows(previous, r.value)
    ensures Ideal(ix) && previous.height + 1 < GENESIS + |ix.h(now)| ==> r.Ok?
  {
    r, later, at := ReadFinalizedBlock(ix, genesisHash, now, previous.height + 1);
    if r.Ok? {
      ReadHasHeight(ix, genesisHash, r.value, at, previous.height + 1);
      if Ideal(ix) { ReadsLink(ix, genesisHash, previous, previousAt, r.value, at); }
      if r.value.prev != previous.hash { r := Err(InvalidObservation); }
    }
  }

  /** Reads the descendants of the pinned tip, each linked to the one before. */
  method ReadPath(ix: Indexer, genesisHash: BlockHash, first: Block, newest: nat, now: nat, ghost firstAt: nat)
    returns (r: Result<Block, ObservationError>, later: nat, ghost path: Blocks, ghost times: seq<nat>)
    requires Valid(ix, genesisHash) && GENESIS <= first.height <= newest && FinalizedAt(ix, first, firstAt)
             && firstAt <= now
    ensures later >= now && (r.Err? ==> r.error == Unavailable || r.error == InvalidObservation)
    ensures r.Ok? ==>
            Path(path) && ReadAt(ix, path, times) && path[0] == first && r.value == path[|path| - 1]
                && r.value.height == newest
    ensures r.Ok? ==> times[|times| - 1] <= later
    ensures Ideal(ix) && newest < GENESIS + |ix.h(now)| ==> r.Ok?
  {
    later := now;
    path, times := [first], [firstAt];
    var previous := first;
    for id := first.height + 1 to newest + 1
      invariant later >= now
      invariant Path(path) && ReadAt(ix, path, times) && path[0] == first && previous == path[|path| - 1]
                && previous.height == id - 1
      invariant times[|times| - 1] <= later
    {
      assert Ideal(ix) ==> Extends(ix.h, now, later);
      ghost var at;
      var next;
      next, later, at := ReadNext(ix, genesisHash, previous, later, times[|times| - 1]);
      if next.Err? { return Err(next.error), later, path, times; }
      path, times, previous := path + [next.value], times + [at], next.value;
    }
    return Ok(previous), later, path, times;
  }

  /** What the closing check rested on: the newest height, the path to it, and the instants that pin them. */
  datatype Closing = Closing(newest: nat, newestAt: nat, path: Blocks, pathAt: nat, seenAt: nat)

  /** The newest height is the one the finalized chain had at an instant between two others. */
  ghost predicate NewestKnown(ix: Indexer, from: nat, upTo: nat, c: Closing) {
    from <= c.newestAt <= upTo && ix.h(c.newestAt) != [] && c.newest == TipHeight(GENESIS, ix.h(c.newestAt))
  }

  /** One instant's chain holds the whole path from the pinned tip to the newest block. */
  ghost predicate Closed(ix: Indexer, tip: Block, from: nat, upTo: nat, c: Closing) {
    && Path(c.path) && c.path[0] == tip && c.path[|c.path| - 1].height == c.newest
    && (forall i :: 0 <= i < |c.path| ==> FinalizedAt(ix, c.path[i], c.pathAt))
    && from <= c.newestAt <= c.pathAt <= c.seenAt <= upTo && FinalizedAt(ix, tip, c.seenAt)
  }

  /** A block that was finalized is read again unchanged, if the chain only grows and reads do not fail. */
  method ReadAgain(ix: Indexer, genesisHash: BlockHash, block: Block, now: nat, ghost blockAt: nat)
    returns (r: Result<(), ObservationError>, later: nat, ghost at: nat)
    requires Valid(ix, genesisHash) && FinalizedAt(ix, block, blockAt) && blockAt <= now
    ensures now <= at <= later && (r.Ok? ==> FinalizedAt(ix, block, at)) && (Ideal(ix) ==> r.Ok?)
  {
    var again;
    again, later, at := ReadFinalizedBlock(ix, genesisHash, now, block.height);
    assert Ideal(ix) ==> Extends(ix.h, blockAt, now) && Extends(ix.h, blockAt, at);
    if again.Err? { return Err(again.error), later, at; }
    if again.value != block { return Err(TipMoved), later, at; }
    return Ok(()), later, at;
  }

  /**
   `ensure_snapshot`. Sound: acceptance means that the finalized chain's height was read, that one finalized chain
   holds a linked path from the pinned tip to a block of that height, and that the pinned tip was finalized after
   every earlier read. Complete: over an ideal indexer it accepts exactly when the chain had grown by at most
   MAX_DISCOVERY_BLOCKS when its height was read.
   */
  method EnsureSnapshot(ix: Indexer, genesisHash: BlockHash, tip: Block, now: nat, ghost tipAt: nat)
    returns (r: Result<(), ObservationError>, later: nat, ghost c: Closing)
    requires Valid(ix, genesisHash) && FinalizedAt(ix, tip, tipAt) && tipAt <= now
    ensures later >= now
    ensures r.Ok? ==> Closed(ix, tip, now, later, c) && c.newest - tip.height <= MAX_DISCOVERY_BLOCKS
    ensures r.Ok? || Ideal(ix) ==> NewestKnown(ix, now, later, c)
    ensures Ideal(ix) ==>
            (r.Ok? <==> c.newest - tip.height <= MAX_DISCOVERY_BLOCKS) && (r.Err? ==> r.error == Unavailable)
    ensures Ideal(ix) ==> c.newest >= tip.height
  {
    c := Closing(0, now, [tip], now, now);
    var last, t := LastFinalized(ix, genesisHash, now);
    assert Ideal(ix) ==> Extends(ix.h, tipAt, t);
    if last.Err? { return Err(last.error), t, c; }
    c := c.(newest := last.value, newestAt := t);
    if last.value < tip.height { return Err(TipMoved), t, c; }
    if last.value - tip.height > MAX_DISCOVERY_BLOCKS { return Err(Unavailable), t, c; }
    r, later, c := FollowPath(ix, genesisHash, tip, last.value, t, tipAt);
  }

  /** The reads of the closing check once the newest height is known; a tip that did not move is read once. */
  method FollowPath(ix: Indexer, genesisHash: BlockHash, tip: Block, newest: nat, now: nat, ghost tipAt: nat)
    returns (r: Result<(), ObservationError>, later: nat, ghost c: Closing)
    requires Valid(ix, genesisHash) && FinalizedAt(ix, tip, tipAt) && tipAt <= now && tip.height <= newest
    ensures later >= now && c.newest == newest && c.newestAt == now
    ensures r.Ok? ==> Closed(ix, tip, now, later, c)
    ensures Ideal(ix) && newest < GENESIS + |ix.h(now)| ==> r.Ok?
  {
    c := Closing(newest, now, [tip], now, now);
    ghost var at, path, times, tipSeen, seen;
    var pinned, u, v, w, last, again;
    pinned, u, at := ReadAgain(ix, genesisHash, tip, now, tipAt);
    if pinned.Err? { return Err(pinned.error), u, c; }
    if newest == tip.height { return Ok(()), u, Closing(newest, now, [tip], at, at); }
    assert Ideal(ix) ==> Extends(ix.h, now, u);
    last, v, path, times := ReadPath(ix, genesisHash, tip, newest, u, at);
    if last.Err? { return Err(last.error), v, c; }
    again, w, tipSeen := ReadAgain(ix, genesisHash, last.value, v, times[|times| - 1]);
    if again.Err? { return Err(again.error), w, c; }
    pinned, later, seen := ReadAgain(ix, genesisHash, tip, w, at);
    if pinned.Err? { return Err(pinned.error), later, c; }
    forall i | 0 <= i < |path| ensures FinalizedAt(ix, path[i], tipSeen) {
      PathIsCanonical(ix, genesisHash, path, times, tipSeen, i);
    }
    return Ok(()), later, Closing(newest, now, path, tipSeen, seen);
  }

  // ----- The observer ------------------------------------------------------------------------------

  /** The finalized tip an observation starts from. */
  method PinTip(ix: Indexer, genesisHash: BlockHash, now: nat)
    returns (r: Result<Block, ObservationError>, later: nat, ghost pin: Pin)
    requires Valid(ix, genesisHash)
    ensures later >= now
    ensures r.Ok? ==> PinnedNewest(ix, now, later, pin) && pin.tip == r.value
    ensures Ideal(ix) ==> r.Ok?
  {
    var last, t := LastFinalized(ix, genesisHash, now);
    pin := Pin(Block(0, genesisHash, genesisHash, 0, []), now, now, []);
    if last.Err? { return Err(last.error), t, pin; }
    ghost var at;
    r, later, at := ReadFinalizedBlock(ix, genesisHash, t, last.value);
    if r.Ok? {
      ReadHasHeight(ix, genesisHash, r.value, at, last.value);
      pin := Pin(r.value, t, at, ix.h(at)[..last.value - GENESIS + 1]);
    }
  }

  /** Everything between pinning the tip and the closing check. */
  method ObservePinned(ix: Indexer, genesisHash: BlockHash, q: Query, tip: Block, now: nat, ghost pin: Pin)
    returns (r: Result<Observation, ObservationError>, later: nat)
    requires Valid(ix, genesisHash) && PinOk(ix, pin) && pin.at <= now && tip == pin.tip
    ensures later >= now
    ensures Confirmed(ix, pin, later) && r.Ok? ==> r == Observe(q, ix.ledger, pin.pinned)
    ensures Ideal(ix) ==> r == Observe(q, ix.ledger, pin.pinned)
  {
    assert UpTo(pin.pinned, tip.height) == pin.pinned;
    var funded, t := false, now;
    if q.target.Exact? {
      var accounts;
      accounts, t := ReadAccounts(ix, genesisHash, now, q.terms.amount, tip.height, None, pin);
      if Ideal(ix) { IdealConfirms(ix, pin, t); }
      if accounts.Err? { return Err(accounts.error), t; }
      funded := accounts.value == V2.Funded;
    }
    r, later := ConcludePinned(ix, genesisHash, q, funded, tip, t, pin);
    if Confirmed(ix, pin, later) { ConfirmedBefore(ix, pin, t, later); }
  }

  /** A funded tip's accounts are kept; otherwise they are read after the search. */
  method ConcludePinned(ix: Indexer, genesisHash: BlockHash, q: Query, funded: bool, tip: Block, now: nat,
                        ghost pin: Pin)
    returns (r: Result<Observation, ObservationError>, later: nat)
    requires Valid(ix, genesisHash) && PinOk(ix, pin) && pin.at <= now && tip == pin.tip
    requires funded ==>
             q.target.Exact? && (Confirmed(ix, pin, now) ==>
                                 Accounts(ix.ledger, q.terms.amount, pin.pinned, None) == Ok(V2.Funded))
    ensures later >= now
    ensures Confirmed(ix, pin, later) && r.Ok? ==> r == Conclude(q, ix.ledger, funded, pin.pinned)
    ensures Ideal(ix) ==> r == Conclude(q, ix.ledger, funded, pin.pinned)
  {
    assert UpTo(pin.pinned, tip.height) == pin.pinned;
    var refunds, t := ObserveRefunds(ix, genesisHash, q, funded, tip, now, pin);
    later := t;
    if refunds.Err? { return Err(refunds.error), t; }
    var accounts: Result<EscrowStatus, ObservationError> := Ok(V2.Funded);
    if !funded {
      accounts, later := ReadAccounts(ix, genesisHash, t, q.terms.amount, tip.height, refunds.value.1, pin);
    }
    if Ideal(ix) { IdealConfirms(ix, pin, later); }
    if Confirmed(ix, pin, later) {
      ConfirmedBefore(ix, pin, t, later);
      ConfirmedBefore(ix, pin, now, later);
    }
    if accounts.Err? { return Err(accounts.error), later; }
    if accounts.value == V2.Refunded && tip.timestamp < q.terms.refundAt { return Err(InvalidObservation), later; }
    return Ok(Observation(tip, accounts.value, refunds.value.0)), later;
  }

  /** The reads of an observation: the newest finalized tip, everything about its chain, and the closing check. */
  method ObserveFinalized(ix: Indexer, genesisHash: BlockHash, q: Query, now: nat)
    returns (r: Result<Observation, ObservationError>, later: nat, ghost pin: Pin, ghost c: Closing)
    requires Valid(ix, genesisHash)
    ensures later >= now
    ensures r.Ok? ==> PinnedNewest(ix, now, later, pin) && Closed(ix, pin.tip, pin.at, later, c)
    ensures r.Ok? ==> NewestKnown(ix, pin.at, later, c) && c.newest - pin.tip.height <= MAX_DISCOVERY_BLOCKS
    ensures r.Ok? ==> pin.pinned != [] && r == Observe(q, ix.ledger, pin.pinned) && r.value.clock == pin.tip
    ensures Ideal(ix) ==>
              && PinnedNewest(ix, now, later, pin) && pin.pinned != []
              && (Observe(q, ix.ledger, pin.pinned).Ok? ==> NewestKnown(ix, pin.at, later, c))
              && r == if Observe(q, ix.ledger, pin.pinned).Ok?
                  && c.newest - pin.tip.height > MAX_DISCOVERY_BLOCKS then Err(Unavailable)
                      else Observe(q, ix.ledger, pin.pinned)
  {
    c := Closing(0, now, [], now, now);
    var tip, observed, closed, t, u;
    tip, t, pin := PinTip(ix, genesisHash, now);
    if tip.Err? { return Err(tip.error), t, pin, c; }
    observed, u := ObservePinned(ix, genesisHash, q, tip.value, t, pin);
    later := u;
    if observed.Err? { return Err(observed.error), u, pin, c; }
    PinIsFinalized(ix, genesisHash, pin);
    closed, later, c := EnsureSnapshot(ix, genesisHash, tip.value, u, pin.at);
    if closed.Err? { return Err(closed.error), later, pin, c; }
    assert Confirmed(ix, pin, u) by { assert StillCanonical(GENESIS, ix.h, c.seenAt, TipOf(pin.tip)); }
    return observed, later, pin, c;
  }

  /**
   Observes a refund while the finalized chain moves. An accepted answer is the observation of the one
   finalized chain that ends at the reported clock, the newest block when its height was read, whatever the
   reads in between saw: its accounts hold what its status says, and a found refund stands on it. Over an ideal
   indexer every answer is the observation of that chain, errors included, unless the chain had outgrown the
   closing check when that check read its height.
   */
  method ObserveRefund(ix: Indexer, genesisHash: BlockHash, q: Query, role: Participant, signer: AccountId, now: nat)
    returns (r: Result<Observation, ObservationError>, later: nat, ghost pin: Pin, ghost c: Closing)
    requires Valid(ix, genesisHash)
    ensures later >= now
    ensures !MayObserve(role, signer, q.terms, q.target) ==> r == Err(PlannerRefused)
    ensures MayObserve(role, signer, q.terms, q.target) && !q.AuthorityOk() ==> r == Err(InvalidObservation)
    ensures MayObserve(role, signer, q.terms, q.target) && q.AuthorityOk() && q.target.Exact? && q.owned.None? ==>
            r == Err(PlannerRefused)
    ensures r.Ok? ==> PinnedNewest(ix, now, later, pin) && Closed(ix, pin.tip, pin.at, later, c)
    ensures r.Ok? ==> NewestKnown(ix, pin.at, later, c) && c.newest - pin.tip.height <= MAX_DISCOVERY_BLOCKS
    ensures r.Ok? ==> pin.pinned != [] && r == Observe(q, ix.ledger, pin.pinned) && r.value.clock == pin.tip
    ensures r.Ok? ==>
              && ix.ledger.metadata(pin.pinned) == V2.Metadata(r.value.status, true) && r.value.status != V2.Empty
              && V2.CustodyFits(r.value.status, q.terms.amount, ix.ledger.balance(pin.pinned))
    ensures r.Ok? && r.value.refund.Searched? && r.value.refund.verdict.FoundAt? ==>
              && r.value.status == V2.Refunded && ix.ledger.balance(pin.pinned) == 0
              && exists i: nat, j: nat, public ::
                   RefundStands(q, ix.ledger, pin.pinned, r.value.refund.verdict.found, i, j, public)
    ensures Ideal(ix) && MayObserve(role, signer, q.terms, q.target) && q.AuthorityOk()
            && (q.target.Exact? ==> q.owned.Some?) ==>
              && PinnedNewest(ix, now, later, pin) && pin.pinned != []
              && (Observe(q, ix.ledger, pin.pinned).Ok? ==> NewestKnown(ix, pin.at, later, c))
              && r == if Observe(q, ix.ledger, pin.pinned).Ok?
                  && c.newest - pin.tip.height > MAX_DISCOVERY_BLOCKS then Err(Unavailable)
                      else Observe(q, ix.ledger, pin.pinned)
  {
    c := Closing(0, now, [], now, now);
    pin := Pin(Block(0, genesisHash, genesisHash, 0, []), now, now, []);
    if q.target.DiscoverByTerms? {
      if q.terms.claimant != role || q.terms.claimantAccount != signer || q.terms.depositor == role {
        return Err(PlannerRefused), now, pin, c;
      }
    } else if q.terms.depositor != role || q.terms.depositorAccount != signer {
      return Err(PlannerRefused), now, pin, c;
    }
    if q.escrow.Witnessed? && q.escrow.authority != KeyAccount(q.escrow.aggregateKey) {
      return Err(InvalidObservation), now, pin, c;
    }
    if q.target.Exact? && q.owned.None? { return Err(PlannerRefused), now, pin, c; }
    r, later, pin, c := ObserveFinalized(ix, genesisHash, q, now);
    if r.Ok? {
      PinLinked(ix, genesisHash, pin);
      ObservationMeans(q, ix.ledger, genesisHash, pin.pinned);
    }
  }

  lemma PinLinked(ix: Indexer, genesisHash: BlockHash, pin: Pin)
    requires Valid(ix, genesisHash) && PinOk(ix, pin)
    ensures Linked(GENESIS, genesisHash, pin.pinned)
  {
    assert Linked(GENESIS, genesisHash, ix.h(pin.at));
    assert forall i :: 0 <= i < |pin.pinned| ==> pin.pinned[i] == ix.h(pin.at)[i];
  }

  lemma PinIsFinalized(ix: Indexer, genesisHash: BlockHash, pin: Pin)
    requires Valid(ix, genesisHash) && PinOk(ix, pin)
    ensures FinalizedAt(ix, pin.tip, pin.at)
  {
    assert Linked(GENESIS, genesisHash, ix.h(pin.at));
    assert ix.h(pin.at)[|pin.pinned| - 1] == pin.tip;
  }
}
