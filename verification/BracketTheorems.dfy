/**
 How the two brackets compare: the equal-tip bracket of v0.1.2 and the extension bracket of v0.2, on the same
 runs.
 */
module BracketTheorems {
  import opened Wrappers
  import opened Nssa
  import opened Chain

  /** A tip pins one chain, whenever it is read. */
  lemma TipPinsOneChain(genesis: nat, genesisHash: BlockHash, h: History, tip: ChainTip, t: nat, pinned: Blocks, u: nat,
                        pinned': Blocks)
    requires ValidHistory(genesis, genesisHash, h)
    requires Pins(genesis, h, t, tip, pinned) && Pins(genesis, h, u, tip, pinned')
    ensures pinned == pinned'
  {
    var i := tip.height - genesis;
    assert h(t)[i] == pinned[i] && h(u)[i] == pinned'[i];
    assert SameHash(h, t, u, i, i);
    SharedBlockSharesAncestors(genesis, genesisHash, h, t, u, i);
    assert h(t)[..i + 1] == pinned && h(u)[..i + 1] == pinned';
  }

  /** A closed extension bracket holds the pinned chain from its pin to the last sighting of it. */
  lemma ExtensionHolds(genesis: nat, genesisHash: BlockHash, h: History, pinnedAt: nat, tip: ChainTip, pinned: Blocks,
                       s: Sighting, checkAt: nat, t: nat)
    requires ValidHistory(genesis, genesisHash, h) && Pins(genesis, h, pinnedAt, tip, pinned)
    requires pinnedAt <= s.heightAt <= s.blockAt <= checkAt && ExtensionCloses(genesis, h, tip, s, checkAt)
    requires pinnedAt <= t <= s.blockAt
    ensures pinned <= h(t)
  {
    assert Linked(genesis, genesisHash, h(s.heightAt)) && Linked(genesis, genesisHash, h(s.blockAt));
    if Sighted(genesis, h, s) == Some(tip) {
      PinnedBetween(genesis, genesisHash, h, pinnedAt, t, s.blockAt, tip, pinned);
    } else {
      PinnedBetween(genesis, genesisHash, h, pinnedAt, t, checkAt, tip, pinned);
    }
  }

  /**
   On every history, for every pinned tip and every closing read: if the equal-tip bracket closes, the
   extension bracket closes on the same reads, without any further one, and what it pins is the same chain,
   which every instant in between begins with.
   */
  lemma EqualTipRunsAreExtensionRuns(genesis: nat, genesisHash: BlockHash, h: History, pinnedAt: nat, tip: ChainTip,
                                     pinned: Blocks,
                                     s: Sighting, checkAt: nat, t: nat, pinned': Blocks)
    requires ValidHistory(genesis, genesisHash, h) && Pins(genesis, h, pinnedAt, tip, pinned)
    requires pinnedAt <= s.heightAt <= s.blockAt && pinnedAt <= t <= s.blockAt
    requires EqualTipCloses(genesis, h, tip, s)
    ensures ExtensionCloses(genesis, h, tip, s, checkAt)
    ensures pinned <= h(t)
    ensures Pins(genesis, h, t, tip, pinned') <==> pinned' == pinned
  {
    assert ExtensionCloses(genesis, h, tip, s, s.blockAt);
    ExtensionHolds(genesis, genesisHash, h, pinnedAt, tip, pinned, s, s.blockAt, t);
    assert Pins(genesis, h, t, tip, pinned);
    if Pins(genesis, h, t, tip, pinned') { TipPinsOneChain(genesis, genesisHash, h, tip, t, pinned, t, pinned'); }
  }

  /**
   On a chain that only grows the extension bracket closes on every run, and the equal-tip bracket on exactly
   those in which no block arrived between the pin and the closing read of the height.
   */
  lemma BracketsOnGrowingChains(genesis: nat, genesisHash: BlockHash, h: History, pinnedAt: nat, tip: ChainTip,
                                pinned: Blocks, s: Sighting, checkAt: nat)
    requires ValidHistory(genesis, genesisHash, h) && AppendOnly(h) && Pins(genesis, h, pinnedAt, tip, pinned)
    requires pinnedAt <= s.heightAt <= s.blockAt <= checkAt
    ensures ExtensionCloses(genesis, h, tip, s, checkAt)
    ensures EqualTipCloses(genesis, h, tip, s) <==> h(s.heightAt) == pinned
  {
    assert Extends(h, pinnedAt, s.heightAt) && Extends(h, s.heightAt, s.blockAt) && Extends(h, s.blockAt, checkAt);
    assert Linked(genesis, genesisHash, h(s.heightAt)) && Linked(genesis, genesisHash, h(s.blockAt));
    var top := h(s.heightAt)[|h(s.heightAt)| - 1];
    assert Sighted(genesis, h, s) == Some(TipOf(top));
    assert h(checkAt)[|pinned| - 1] == pinned[|pinned| - 1];
  }

  /** A chain of one block that a second block joins after the first instant. */
  function Growing(a: Block, b: Block): History { (t: nat) => if t == 0 then [a] else [a, b] }

  lemma GrowingIsValid(genesis: nat, a: Block, b: Block)
    requires a.height == genesis && b.height == genesis + 1 && b.prev == a.hash && a.hash != b.hash
    ensures ValidHistory(genesis, a.hash, Growing(a, b)) && AppendOnly(Growing(a, b))
  {
    var h := Growing(a, b);
    forall t: nat ensures Linked(genesis, a.hash, h(t)) {}
    forall t: nat, u: nat ensures Extends(h, t, u) {}
    forall t: nat, u: nat, i: nat, j: nat | SameHash(h, t, u, i, j) ensures h(t)[i] == h(u)[j] {
      BlockOfGrowing(a, b, t, i);
      BlockOfGrowing(a, b, u, j);
    }
    forall t: nat, u: nat, v: nat, i: nat | CanonicalAgain(h, t, u, v, i) ensures Holds(h(u), i, h(t)[i]) {
      assert Extends(h, t, u);
    }
  }

  lemma BlockOfGrowing(a: Block, b: Block, t: nat, i: nat)
    requires i < |Growing(a, b)(t)|
    ensures Growing(a, b)(t)[i] == if i == 0 then a else b
  {
  }

  /** A run that the extension bracket accepts and the equal-tip bracket refuses. */
  ghost predicate Splits(genesis: nat, genesisHash: BlockHash, h: History, tip: ChainTip, pinned: Blocks, s: Sighting,
                         checkAt: nat) {
    && ValidHistory(genesis, genesisHash, h) && Pins(genesis, h, 0, tip, pinned) && s.heightAt <= s.blockAt <= checkAt
    && ExtensionCloses(genesis, h, tip, s, checkAt) && !EqualTipCloses(genesis, h, tip, s)
  }

  /** The inclusion is strict, at every genesis height: a block that arrives in between splits the two brackets. */
  lemma InclusionIsStrict(genesis: nat)
    ensures exists genesisHash, h, tip, pinned, s, checkAt :: Splits(genesis, genesisHash, h, tip, pinned, s, checkAt)
  {
    var a := Block(genesis, UnmatchedBlockHash(1), UnmatchedBlockHash(0), 0, []);
    var b := Block(genesis + 1, UnmatchedBlockHash(2), UnmatchedBlockHash(1), 0, []);
    var h := Growing(a, b);
    GrowingIsValid(genesis, a, b);
    assert Pins(genesis, h, 0, TipOf(a), [a]);
    BracketsOnGrowingChains(genesis, a.hash, h, 0, TipOf(a), [a], Sighting(1, 1), 1);
    assert h(1) != [a];
    assert Splits(genesis, a.hash, h, TipOf(a), [a], Sighting(1, 1), 1);
  }
}
