/**
 A chain that changes while it is being read. A history gives the canonical chain at every instant;
 a read happens at some instant not before the previous one and answers from that instant's chain.

 Three assumptions about the node are named here and nowhere else: canonical blocks are linked,
 block hashes do not collide, and a replaced block never becomes canonical again. One range read
 answers from one instant.
 */
module Chain {
  import opened Wrappers
  import opened Nssa

  const U64_MAX: nat := 0xFFFF_FFFF_FFFF_FFFF
  const MAX_DISCOVERY_BLOCKS: nat := 4096

  datatype Transaction = Private(hash: TransactionId) | Public(public: PublicTransaction) {
    function Hash(): TransactionId {
      match this
      case Private(hash) => hash
      case Public(public) => HashOf(public)
    }
  }

  /** The hash of a block's hashed content, or a hash of nothing in particular. */
  datatype BlockHash =
    | BlockHashOf(height: nat, prev: BlockHash, timestamp: nat, transactions: seq<Transaction>)
    | UnmatchedBlockHash(raw: nat)

  /**
   The content of a block. Whether it is pending, safe or finalized is no part of it: the hash does not
   cover that status, and it changes while the block stays canonical.
   */
  datatype Block = Block(height: nat, hash: BlockHash, prev: BlockHash, timestamp: nat, transactions: seq<Transaction>)

  datatype ChainTip = ChainTip(hash: BlockHash, height: nat)

  datatype ObservationError =
    | Unavailable | InvalidObservation | TipMoved | Ambiguous | Conflicting | PlannerRefused

  // ----- Windows --------------------------------------------------------------------------------

  /** `DiscoveryWindow::new` admits one to MAX_DISCOVERY_BLOCKS heights whose last does not overflow. */
  predicate WindowOk(start: nat, count: nat) {
    1 <= count <= MAX_DISCOVERY_BLOCKS && start + (count - 1) <= U64_MAX
  }

  type Window = w: (nat, nat) | WindowOk(w.0, w.1) witness (0, 1)

  function WindowEnd(window: Window): nat { window.0 + (window.1 - 1) }

  function Min(a: int, b: int): int { if a <= b then a else b }
  function Max(a: int, b: int): int { if a <= b then b else a }

  // ----- Histories ------------------------------------------------------------------------------

  /** A canonical chain, oldest block first; block `i` has height `genesis + i`. */
  type Blocks = seq<Block>

  type History = nat -> Blocks

  predicate Linked(genesis: nat, genesisHash: BlockHash, chain: Blocks) {
    && chain != []
    && chain[0].hash == genesisHash
    && (forall i :: 0 <= i < |chain| ==> chain[i].height == genesis + i)
    && (forall i :: 0 < i < |chain| ==> chain[i].prev == chain[i - 1].hash)
  }

  /** Whether the block at offset `i` of `chain` is `block`. */
  predicate Holds(chain: Blocks, i: nat, block: Block) { i < |chain| && chain[i] == block }

  /** Canonical blocks of two instants with one hash. */
  ghost predicate SameHash(h: History, t: nat, u: nat, i: nat, j: nat) {
    i < |h(t)| && j < |h(u)| && h(t)[i].hash == h(u)[j].hash
  }

  ghost predicate HashesFree(h: History) {
    forall t: nat, u: nat, i: nat, j: nat {:trigger SameHash(h, t, u, i, j)} :: SameHash(h, t, u, i, j) ==>
        h(t)[i] == h(u)[j]
  }

  /** A block canonical at `t` is canonical at `v`, and `u` lies between. */
  ghost predicate CanonicalAgain(h: History, t: nat, u: nat, v: nat, i: nat) {
    t <= u <= v && i < |h(t)| && Holds(h(v), i, h(t)[i])
  }

  /** A block canonical at two instants was canonical at every instant between them. */
  ghost predicate NoReturn(h: History) {
    forall t: nat, u: nat, v: nat, i: nat {:trigger CanonicalAgain(h, t, u, v, i)} :: CanonicalAgain(h, t, u, v, i) ==>
        Holds(h(u), i, h(t)[i])
  }

  ghost predicate ValidHistory(genesis: nat, genesisHash: BlockHash, h: History) {
    && (forall t: nat {:trigger Linked(genesis, genesisHash, h(t))} :: Linked(genesis, genesisHash, h(t)))
    && HashesFree(h)
    && NoReturn(h)
  }

  ghost predicate Extends(h: History, t: nat, u: nat) { t <= u ==> h(t) <= h(u) }

  /** Every later chain extends every earlier one. */
  ghost predicate AppendOnly(h: History) {
    forall t: nat, u: nat :: Extends(h, t, u)
  }

  /** Linked hashes pin ancestry: a shared block has the same ancestors wherever it is canonical. */
  lemma {:induction false} SharedBlockSharesAncestors(genesis: nat, genesisHash: BlockHash, h: History, t: nat, u: nat,
                                                      i: nat)
    requires ValidHistory(genesis, genesisHash, h)
    requires i < |h(t)| && Holds(h(u), i, h(t)[i])
    ensures h(t)[..i + 1] == h(u)[..i + 1]
    decreases i
  {
    assert Linked(genesis, genesisHash, h(t)) && Linked(genesis, genesisHash, h(u));
    if i == 0 {
      assert h(t)[..1] == [h(t)[0]] && h(u)[..1] == [h(u)[0]];
    } else {
      assert SameHash(h, t, u, i - 1, i - 1);
      SharedBlockSharesAncestors(genesis, genesisHash, h, t, u, i - 1);
      assert h(t)[..i + 1] == h(t)[..i] + [h(t)[i]];
      assert h(u)[..i + 1] == h(u)[..i] + [h(u)[i]];
    }
  }

  /** A block seen canonical at both ends of an interval fixes its whole ancestry throughout it. */
  lemma PinnedThroughout(genesis: nat, genesisHash: BlockHash, h: History, t: nat, u: nat, v: nat, i: nat)
    requires ValidHistory(genesis, genesisHash, h) && t <= u <= v
    requires i < |h(t)| && Holds(h(v), i, h(t)[i])
    ensures i < |h(u)| && h(u)[..i + 1] == h(t)[..i + 1]
  {
    assert CanonicalAgain(h, t, u, v, i);
    SharedBlockSharesAncestors(genesis, genesisHash, h, t, u, i);
  }

  // ----- Reads ----------------------------------------------------------------------------------

  /** The block of a chain at a height. */
  function At(genesis: nat, chain: Blocks, height: nat): Option<Block> {
    if genesis <= height < genesis + |chain| then Some(chain[height - genesis]) else None
  }

  function TipHeight(genesis: nat, chain: Blocks): nat
    requires chain != []
  {
    genesis + |chain| - 1
  }

  function TipOf(block: Block): ChainTip { ChainTip(block.hash, block.height) }

  /** The instants at which reads fail. */
  type Outages = nat -> bool

  /** A node that answers every read of a chain that only grows, with heights that fit 64 bits. */
  ghost predicate Steady(h: History, fails: Outages) {
    AppendOnly(h) && (forall t: nat :: !fails(t)) && forall t: nat :: |h(t)| <= U64_MAX
  }

  /** Any later instant. */
  method Later(now: nat) returns (later: nat)
    ensures later >= now
  {
    later :| later >= now;
  }

  method LastBlockId(genesis: nat, h: History, fails: Outages, now: nat)
      returns (r: Result<nat, ObservationError>, later: nat)
    requires forall t: nat :: h(t) != []
    ensures later >= now
    ensures r == if fails(later) then Err(Unavailable) else Ok(TipHeight(genesis, h(later)))
  {
    later := Later(now);
    if fails(later) { return Err(Unavailable), later; }
    return Ok(TipHeight(genesis, h(later))), later;
  }

  method GetBlock(genesis: nat, h: History, fails: Outages, now: nat, height: nat)
      returns (r: Result<Option<Block>, ObservationError>, later: nat)
    ensures later >= now
    ensures r == if fails(later) then Err(Unavailable) else Ok(At(genesis, h(later), height))
  {
    later := Later(now);
    if fails(later) { return Err(Unavailable), later; }
    return Ok(At(genesis, h(later), height)), later;
  }

  /** The blocks from one offset up to another. */
  function Span(chain: Blocks, a: nat, b: nat): Blocks {
    if a <= b <= |chain| then seq(b - a, i requires 0 <= i < b - a => chain[a + i]) else []
  }

  /** The blocks of an inclusive height range that a chain has. */
  function Slice(genesis: nat, chain: Blocks, start: nat, end: nat): Blocks {
    if genesis <= start <= end < genesis + |chain| then Span(chain, start - genesis, end + 1 - genesis) else []
  }

  /** A range read past the tip of an instant answers what there is. */
  function RangeOf(genesis: nat, chain: Blocks, start: nat, end: nat): Blocks {
    Slice(genesis, chain, start, Min(end, Max(genesis + |chain| - 1, 0)))
  }

  method GetBlockRange(genesis: nat, h: History, fails: Outages, now: nat, start: nat, end: nat)
      returns (r: Result<Blocks, ObservationError>, later: nat)
    ensures later >= now
    ensures r == if fails(later) then Err(Unavailable) else Ok(RangeOf(genesis, h(later), start, end))
  {
    later := Later(now);
    if fails(later) { return Err(Unavailable), later; }
    return Ok(RangeOf(genesis, h(later), start, end)), later;
  }

  // ----- The pinned chain -----------------------------------------------------------------------

  /** The chain of instant `t` up to and including the pinned tip. */
  ghost predicate Pins(genesis: nat, h: History, t: nat, tip: ChainTip, pinned: Blocks) {
    && genesis <= tip.height && |pinned| == tip.height - genesis + 1
    && pinned <= h(t)
    && pinned[|pinned| - 1].hash == tip.hash
  }

  /** The pinned tip is still canonical at `t`. */
  ghost predicate StillCanonical(genesis: nat, h: History, t: nat, tip: ChainTip) {
    var block := At(genesis, h(t), tip.height);
    block.Some? && block.value.hash == tip.hash
  }

  /** Between pinning a tip and seeing it canonical again, every instant's chain begins with the pinned one. */
  lemma PinnedBetween(genesis: nat, genesisHash: BlockHash, h: History, t: nat, u: nat, v: nat, tip: ChainTip,
                      pinned: Blocks)
    requires ValidHistory(genesis, genesisHash, h) && t <= u <= v
    requires Pins(genesis, h, t, tip, pinned) && StillCanonical(genesis, h, v, tip)
    ensures pinned <= h(u)
  {
    var i := tip.height - genesis;
    assert h(t)[i] == pinned[i];
    assert SameHash(h, t, v, i, i);
    PinnedThroughout(genesis, genesisHash, h, t, u, v, i);
    assert h(t)[..i + 1] == pinned;
  }

  /** The last block of the pinned chain is the pinned tip. */
  lemma PinEndsAtTip(genesis: nat, genesisHash: BlockHash, h: History, t: nat, tip: ChainTip, pinned: Blocks)
    requires ValidHistory(genesis, genesisHash, h) && Pins(genesis, h, t, tip, pinned)
    ensures TipOf(pinned[|pinned| - 1]) == tip
  {
    assert Linked(genesis, genesisHash, h(t));
    assert pinned[|pinned| - 1] == h(t)[|pinned| - 1];
  }

  /** The instants of the two reads of a tip: its height, and then the block at that height. */
  datatype Sighting = Sighting(heightAt: nat, blockAt: nat)

  /** The tip that the two reads see. */
  ghost function Sighted(genesis: nat, h: History, s: Sighting): Option<ChainTip> {
    if h(s.heightAt) == [] then None
    else
      match At(genesis, h(s.blockAt), TipHeight(genesis, h(s.heightAt)))
      case None => None
      case Some(block) => Some(TipOf(block))
  }

  /** The equal-tip bracket closes when the very same tip is seen again. */
  ghost predicate EqualTipCloses(genesis: nat, h: History, tip: ChainTip, s: Sighting) {
    Sighted(genesis, h, s) == Some(tip)
  }

  /** The extension bracket also closes on a higher tip, if a further read finds the pinned one still canonical. */
  ghost predicate ExtensionCloses(genesis: nat, h: History, tip: ChainTip, s: Sighting, checkAt: nat) {
    match Sighted(genesis, h, s)
    case None => false
    case Some(later) => later == tip || (later.height > tip.height && StillCanonical(genesis, h, checkAt, tip))
  }

  /** A tip seen between two instants: its height was the chain's at one of them, and its block ended `pinned` then. */
  ghost predicate SeesTip(genesis: nat, h: History, from: nat, upTo: nat, s: Sighting, tip: ChainTip, pinned: Blocks) {
    && from <= s.heightAt <= s.blockAt <= upTo
    && Sighted(genesis, h, s) == Some(tip) && Pins(genesis, h, s.blockAt, tip, pinned)
  }

  /** The newest window of full length that ends at or above a height. */
  function NewestWindow(genesis: nat, height: nat): (nat, nat) {
    (Max(height - (MAX_DISCOVERY_BLOCKS - 1), genesis), MAX_DISCOVERY_BLOCKS)
  }

  method ReadTip(genesis: nat, genesisHash: BlockHash, h: History, fails: Outages, now: nat)
    returns (r: Result<ChainTip, ObservationError>, later: nat, ghost pinned: Blocks, ghost heightAt: nat)
    requires ValidHistory(genesis, genesisHash, h)
    ensures now <= heightAt <= later
    ensures r.Err? ==> r.error == Unavailable
    ensures r.Ok? ==>
            Pins(genesis, h, later, r.value, pinned) && Sighted(genesis, h, Sighting(heightAt, later)) == Some(r.value)
    ensures r.Ok? && AppendOnly(h) ==> r.value.height >= genesis + |h(now)| - 1
    ensures Steady(h, fails) ==> r.Ok?
  {
    assert forall t: nat :: Linked(genesis, genesisHash, h(t));
    pinned := [];
    var height, t := LastBlockId(genesis, h, fails, now);
    if height.Err? { return Err(height.error), t, [], t; }
    assert AppendOnly(h) ==> Extends(h, now, t);
    var block, u := GetBlock(genesis, h, fails, t, height.value);
    if block.Err? { return Err(block.error), u, [], t; }
    assert AppendOnly(h) ==> Extends(h, t, u);
    if block.value.None? { return Err(Unavailable), u, [], t; }
    assert Linked(genesis, genesisHash, h(u));
    return Ok(TipOf(block.value.value)), u, h(u)[..height.value - genesis + 1], t;
  }

  /** The blocks of a window that the pinned chain has. */
  function WindowBlocks(genesis: nat, pinned: Blocks, window: Window): Blocks {
    Slice(genesis, pinned, Max(window.0, genesis), Min(WindowEnd(window), Max(genesis + |pinned| - 1, 0)))
  }

  /** A range without its first block, when that was only read to anchor the links. */
  function SkipAnchor(range: Blocks, skip: bool): Blocks {
    if skip && range != [] then seq(|range| - 1, i requires 0 <= i < |range| - 1 => range[i + 1]) else range
  }

  /** The first and last heights of a window that a pinned chain can have. */
  function FirstHeight(genesis: nat, window: Window): nat { Max(window.0, genesis) }
  function LastHeight(window: Window, tip: nat): nat { Min(WindowEnd(window), tip) }

  /** A range read of any chain that begins with the pinned one, without its anchor, is the pinned chain's window. */
  lemma RangeIsWindow(genesis: nat, pinned: Blocks, chain: Blocks, window: Window, anchor: nat, first: nat, last: nat)
    requires pinned != [] && pinned <= chain && genesis <= anchor <= first <= anchor + 1 && first <= last
    requires first == FirstHeight(genesis, window) && last == LastHeight(window, genesis + |pinned| - 1)
    ensures SkipAnchor(RangeOf(genesis, chain, anchor, last), first > anchor) == WindowBlocks(genesis, pinned, window)
  {
    var range, blocks := RangeOf(genesis, chain, anchor, last), WindowBlocks(genesis, pinned, window);
    assert forall i :: 0 <= i < |range| ==> range[i] == pinned[anchor - genesis + i];
    assert forall i :: 0 <= i < |blocks| ==> blocks[i] == pinned[first - genesis + i];
  }

  lemma SpanGrows(chain: Blocks, a: nat, b: nat)
    requires a <= b < |chain|
    ensures Span(chain, a, b + 1) == Span(chain, a, b) + [chain[b]]
  {
  }

  lemma SpanPrefix(chain: Blocks, a: nat, b: nat, c: nat)
    requires a <= b <= c <= |chain|
    ensures |Span(chain, a, c)| == c - a && Span(chain, a, b) == Span(chain, a, c)[..b - a]
  {
  }

  lemma WindowIsSpan(genesis: nat, pinned: Blocks, window: Window, a: nat, b: nat)
    requires pinned != [] && genesis + a == window.0 && a < b
             && genesis + b == LastHeight(window, genesis + |pinned| - 1) + 1
    ensures b <= |pinned| && WindowBlocks(genesis, pinned, window) == Span(pinned, a, b)
  {
  }
}
