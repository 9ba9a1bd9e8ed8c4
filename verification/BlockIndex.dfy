/**
 The evidence exporter's index of LEZ transactions: a binary search for the first block of a padded time
 window and a paged read forward from it, proved against the plain list of the window's blocks.
 */
module BlockIndex {
  import opened Wrappers

  const PAGE: nat := 50

  datatype IndexedBlock = IndexedBlock(hash: nat, status: nat, timestamp: int, transactions: seq<nat>)

  /** Where a transaction was found. */
  datatype Facts = Facts(id: nat, hash: nat, status: nat, timestamp: int)

  /** Block ids are dense from the genesis id; the chain may have grown past the head that was read first. */
  datatype Indexer = Indexer(genesis: nat, chain: seq<IndexedBlock>, head: nat) {
    predicate Valid() {
      && genesis <= 1 && genesis <= head < genesis + |chain|
      && (forall i, j :: 0 <= i < j < |chain| ==> chain[i].timestamp <= chain[j].timestamp)
    }

    predicate Has(id: nat) { genesis <= id < genesis + |chain| }

    function Block(id: nat): IndexedBlock
      requires Has(id)
    {
      chain[id - genesis]
    }

    /** `getBlockById`; asking for a block that is not there ends the program. */
    function GetBlockById(id: nat): Option<IndexedBlock> { if Has(id) then Some(Block(id)) else None }

    /** The lowest id of `getBlocks(before, count)`; there is nothing when `before` lies beyond the last block. */
    function PageStart(before: nat, count: nat): nat {
      if before > genesis + |chain| then before else if before >= count + genesis then before - count else genesis
    }
  }

  function StartMs(fromUnix: int): int { (fromUnix - 120) * 1000 }
  function EndMs(toUnix: int): int { (toUnix + 600) * 1000 }

  // ----- The binary search ----------------------------------------------------------------------------

  /** Whether the search asks for the missing block zero of a chain whose genesis is block one. */
  predicate ProbesMissing(ix: Indexer, startMs: int)
    requires ix.Valid()
  {
    ix.genesis == 1 && (ix.head == 1 || ix.Block(1).timestamp >= startMs)
  }

  /** The first block of the window, or the head: no earlier block reaches the start. */
  ghost predicate IsFirst(ix: Indexer, startMs: int, first: nat)
    requires ix.Valid()
  {
    && ix.genesis <= first <= ix.head
    && (forall id: nat :: ix.genesis <= id < first ==> ix.Block(id).timestamp < startMs)
    && (first < ix.head ==> ix.Block(first).timestamp >= startMs)
  }

  /** The search fails exactly when it probes the missing block, and otherwise finds the first block. */
  method FindFirst(ix: Indexer, startMs: int) returns (r: Option<nat>)
    requires ix.Valid()
    ensures r.None? <==> ProbesMissing(ix, startMs)
    ensures r.Some? ==> IsFirst(ix, startMs, r.value)
  {
    var low: nat, high: nat := 0, ix.head;
    while low < high
      invariant low <= high <= ix.head
      invariant forall id: nat :: ix.genesis <= id < low ==> ix.Block(id).timestamp < startMs
      invariant high < ix.head ==> high >= ix.genesis && ix.Block(high).timestamp >= startMs
      invariant low > 0 ==> low > ix.genesis && !ProbesMissing(ix, startMs)
    {
      var middle := (low + high) / 2;
      var block := ix.GetBlockById(middle);
      if block.None? { return None; }
      if block.value.timestamp < startMs {
        forall id: nat | ix.genesis <= id <= middle ensures ix.Block(id).timestamp < startMs {
          Monotone(ix, id, middle);
        }
        low := middle + 1;
      } else {
        high := middle;
      }
    }
    return Some(low);
  }

  lemma Monotone(ix: Indexer, a: nat, b: nat)
    requires ix.Valid() && ix.Has(a) && ix.Has(b) && a <= b
    ensures ix.Block(a).timestamp <= ix.Block(b).timestamp
  {
  }

  // ----- Recording ------------------------------------------------------------------------------------

  type Index = map<nat, Facts>

  function FactsOf(ix: Indexer, id: nat): Facts
    requires ix.Has(id)
  {
    Facts(id, ix.Block(id).hash, ix.Block(id).status, ix.Block(id).timestamp)
  }

  /** Every listed transaction now has these facts, whatever was recorded before. */
  function RecordAll(index: Index, transactions: seq<nat>, facts: Facts): Index {
    if transactions == [] then index
    else RecordAll(index, transactions[..|transactions| - 1], facts)[transactions[|transactions| - 1] := facts]
  }

  /** The index of blocks read in some order, a later read winning. */
  function IndexOf(ix: Indexer, ids: seq<nat>): Index
    requires forall id :: id in ids ==> ix.Has(id)
  {
    if ids == [] then map[]
    else
      var last := ids[|ids| - 1];
      RecordAll(IndexOf(ix, ids[..|ids| - 1]), ix.Block(last).transactions, FactsOf(ix, last))
  }

  lemma {:induction false} RecordAllMeans(index: Index, transactions: seq<nat>, facts: Facts, hash: nat)
    ensures hash in RecordAll(index, transactions, facts) <==> hash in transactions || hash in index
    ensures hash in transactions ==> RecordAll(index, transactions, facts)[hash] == facts
    ensures hash in index && hash !in transactions ==> RecordAll(index, transactions, facts)[hash] == index[hash]
    decreases |transactions|
  {
    if transactions != [] {
      RecordAllMeans(index, transactions[..|transactions| - 1], facts, hash);
      assert transactions == transactions[..|transactions| - 1] + [transactions[|transactions| - 1]];
    }
  }

  /** The read at place `k` is the last one whose block holds the transaction. */
  ghost predicate LastWith(ix: Indexer, ids: seq<nat>, hash: nat, k: nat)
    requires forall id :: id in ids ==> ix.Has(id)
  {
    k < |ids| && hash in ix.Block(ids[k]).transactions && forall j: nat :: k < j < |ids| ==>
        hash !in ix.Block(ids[j]).transactions
  }

  /**
   Everything recorded is the last read block that holds the transaction, and every transaction of a read
   block is recorded.
   */
  lemma {:induction false} IndexOfMeans(ix: Indexer, ids: seq<nat>, hash: nat)
    requires forall id :: id in ids ==> ix.Has(id)
    ensures hash in IndexOf(ix, ids) ==>
            exists k: nat :: LastWith(ix, ids, hash, k) && IndexOf(ix, ids)[hash] == FactsOf(ix, ids[k])
    ensures forall id :: id in ids && hash in ix.Block(id).transactions ==> hash in IndexOf(ix, ids)
    decreases |ids|
  {
    if ids != [] {
      var front, last := ids[..|ids| - 1], ids[|ids| - 1];
      IndexOfMeans(ix, front, hash);
      RecordAllMeans(IndexOf(ix, front), ix.Block(last).transactions, FactsOf(ix, last), hash);
      if hash in ix.Block(last).transactions {
        assert LastWith(ix, ids, hash, |ids| - 1);
      } else if hash in IndexOf(ix, front) {
        var k: nat :| LastWith(ix, front, hash, k) && IndexOf(ix, front)[hash] == FactsOf(ix, front[k]);
        assert LastWith(ix, ids, hash, k);
      }
      forall id | id in ids && hash in ix.Block(id).transactions ensures hash in IndexOf(ix, ids) {
        assert id in front || id == last;
      }
    }
  }

  // ----- Pages ----------------------------------------------------------------------------------------

  /** The ids from one up to another, each once, in any order. */
  ghost predicate Arranges(ids: seq<nat>, from: nat, upTo: nat) {
    && (forall id :: id in ids <==> from <= id < upTo)
    && (forall i, j :: 0 <= i < j < |ids| ==> ids[i] != ids[j])
  }

  lemma ArrangesJoin(a: seq<nat>, b: seq<nat>, from: nat, middle: nat, upTo: nat)
    requires from <= middle <= upTo && Arranges(a, from, middle) && Arranges(b, middle, upTo)
    ensures Arranges(a + b, from, upTo)
  {
    forall i, j | 0 <= i < j < |a + b| ensures (a + b)[i] != (a + b)[j] {
      if i < |a| <= j { assert a[i] in a && b[j - |a|] in b; }
    }
  }

  /** `getBlocks`: the blocks of a page, in whatever order the node returns them. */
  method GetBlocks(ix: Indexer, before: nat, count: nat) returns (page: seq<nat>)
    requires ix.genesis <= before
    ensures Arranges(page, ix.PageStart(before, count), before)
  {
    page := [];
    var rest: set<nat> := {};
    for id := ix.PageStart(before, count) to before
      invariant forall k: nat :: k in rest <==> ix.PageStart(before, count) <= k < id
    {
      rest := rest + {id};
    }
    while rest != {}
      invariant forall id :: id in page ==> id !in rest
      invariant forall id :: id in page || id in rest <==> ix.PageStart(before, count) <= id < before
      invariant forall i, j :: 0 <= i < j < |page| ==> page[i] != page[j]
      decreases |rest|
    {
      var id :| id in rest;
      page, rest := page + [id], rest - {id};
    }
  }

  /** The blocks of a page at or after the cursor, in the page's order. */
  method Keep(page: seq<nat>, from: nat, cursor: nat, upTo: nat) returns (kept: seq<nat>)
    requires Arranges(page, from, upTo) && from <= cursor <= upTo
    ensures Arranges(kept, cursor, upTo)
  {
    kept := [];
    for i := 0 to |page|
      invariant forall id :: id in kept <==> id in page[..i] && id >= cursor
      invariant forall k, l :: 0 <= k < l < |kept| ==> kept[k] != kept[l]
    {
      assert page[..i + 1] == page[..i] + [page[i]];
      assert page[i] !in page[..i];
      if page[i] >= cursor { kept := kept + [page[i]]; }
    }
    assert page[..|page|] == page;
  }

  /** The highest id and the earliest timestamp of a page. */
  method Extremes(ix: Indexer, page: seq<nat>) returns (highest: nat, earliest: int)
    requires page != [] && forall id :: id in page ==> ix.Has(id)
    ensures highest in page && forall id :: id in page ==> id <= highest
    ensures exists id :: id in page && ix.Block(id).timestamp == earliest
    ensures forall id :: id in page ==> earliest <= ix.Block(id).timestamp
  {
    highest, earliest := page[0], ix.Block(page[0]).timestamp;
    ghost var at := page[0];
    for i := 1 to |page|
      invariant highest in page && at in page && ix.Block(at).timestamp == earliest
      invariant forall k :: 0 <= k < i ==> page[k] <= highest && earliest <= ix.Block(page[k]).timestamp
    {
      if page[i] > highest { highest := page[i]; }
      if ix.Block(page[i]).timestamp < earliest { earliest, at := ix.Block(page[i]).timestamp, page[i]; }
    }
  }

  // ----- The index object -----------------------------------------------------------------------------

  /**
   The range that was read: from the first block, past every block up to the head that is not after the
   window's end.
   */
  ghost predicate Covered(ix: Indexer, startMs: int, endMs: int, first: nat, stop: nat)
    requires ix.Valid()
  {
    && IsFirst(ix, startMs, first) && first <= stop <= ix.head + 1
    && (forall id: nat :: stop <= id <= ix.head ==> ix.Block(id).timestamp > endMs)
  }

  class LezIndex {
    var blocks: map<nat, (nat, nat, nat)>
    var timestamps: map<nat, int>

    /** The two tables hold the id, hash and status, and the timestamp, of the same facts. */
    ghost predicate Represents(index: Index)
      reads this
    {
      && blocks.Keys == index.Keys == timestamps.Keys
      && (forall hash :: hash in index ==>
            blocks[hash] == (index[hash].id, index[hash].hash, index[hash].status)
                && timestamps[hash] == index[hash].timestamp)
    }

    constructor ()
      ensures Represents(map[])
    {
      blocks, timestamps := map[], map[];
    }

    method RecordBlock(ix: Indexer, id: nat, ghost index: Index)
      requires ix.Has(id) && Represents(index)
      modifies this
      ensures Represents(RecordAll(index, ix.Block(id).transactions, FactsOf(ix, id)))
    {
      var transactions := ix.Block(id).transactions;
      for k := 0 to |transactions|
        invariant Represents(RecordAll(index, transactions[..k], FactsOf(ix, id)))
      {
        assert transactions[..k + 1][..k] == transactions[..k];
        blocks := blocks[transactions[k] := (id, ix.Block(id).hash, ix.Block(id).status)];
        timestamps := timestamps[transactions[k] := ix.Block(id).timestamp];
      }
      assert transactions[..|transactions|] == transactions;
    }

    /** Records the blocks of a page in the page's order. */
    method RecordPage(ix: Indexer, page: seq<nat>, ghost visited: seq<nat>)
      requires (forall id :: id in visited ==> ix.Has(id)) && (forall id :: id in page ==> ix.Has(id))
               && Represents(IndexOf(ix, visited))
      modifies this
      ensures Represents(IndexOf(ix, visited + page))
    {
      assert visited + page[..0] == visited;
      for i := 0 to |page|
        invariant Represents(IndexOf(ix, visited + page[..i]))
      {
        ghost var before, after := visited + page[..i], visited + page[..i + 1];
        assert after[..|after| - 1] == before && after[|after| - 1] == page[i];
        RecordBlock(ix, page[i], IndexOf(ix, before));
      }
      assert page[..|page|] == page;
    }

    /** One page from `cursor`: the blocks of the page at or after it, which always include the block there. */
    method ReadPage(ix: Indexer, cursor: nat, ghost first: nat, ghost visited: seq<nat>)
      returns (next: nat, earliest: int, ghost visited': seq<nat>)
      requires ix.Valid() && ix.genesis <= first <= cursor <= ix.head && Arranges(visited, first, cursor)
               && Represents(IndexOf(ix, visited))
      modifies this
      ensures cursor < next <= ix.head + 1 && visited <= visited' && Arranges(visited', first, next)
      ensures Represents(IndexOf(ix, visited')) && earliest == ix.Block(cursor).timestamp
    {
      var before := if cursor + PAGE <= ix.head + 1 then cursor + PAGE else ix.head + 1;
      var page := GetBlocks(ix, before, PAGE);
      page := Keep(page, ix.PageStart(before, PAGE), cursor, before);
      assert cursor in page;
      RecordPage(ix, page, visited);
      visited' := visited + page;
      ArrangesJoin(visited, page, first, cursor, before);
      var highest;
      highest, earliest := Extremes(ix, page);
      forall id | id in page ensures ix.Block(cursor).timestamp <= ix.Block(id).timestamp { Monotone(ix, cursor, id); }
      assert before - 1 in page;
      next := highest + 1;
    }

    /**
     Builds the index of a window. It fails exactly when the search probes a missing block; otherwise it
     holds the index of a range that covers the whole padded window, every block of it read once, pages in
     order and blocks within a page as the node returned them.
     */
    method Build(ix: Indexer, fromUnix: int, toUnix: int)
        returns (ok: bool, ghost first: nat, ghost stop: nat, ghost visited: seq<nat>)
      requires ix.Valid() && Represents(map[])
      modifies this
      ensures ok <==> !ProbesMissing(ix, (fromUnix - 120) * 1000)
      ensures ok ==>
              Covered(ix, (fromUnix - 120) * 1000, (toUnix + 600) * 1000, first, stop) && Arranges(visited, first, stop)
      ensures ok ==> Represents(IndexOf(ix, visited))
    {
      first, stop, visited := 0, 0, [];
      var found := FindFirst(ix, StartMs(fromUnix));
      if found.None? { return false, 0, 0, []; }
      first := found.value;
      var cursor := found.value;
      var done := false;
      while cursor <= ix.head && !done
        invariant found.value <= cursor <= ix.head + 1 && Arranges(visited, first, cursor)
                  && Represents(IndexOf(ix, visited))
        invariant done ==> forall id: nat :: cursor <= id <= ix.head ==> ix.Block(id).timestamp > EndMs(toUnix)
        decreases ix.head + 1 - cursor, !done
      {
        ghost var page := cursor;
        var earliest;
        cursor, earliest, visited := ReadPage(ix, cursor, first, visited);
        if earliest > EndMs(toUnix) {
          forall id: nat | cursor <= id <= ix.head ensures ix.Block(id).timestamp > EndMs(toUnix) {
            Monotone(ix, page, id);
          }
          done := true;
        }
      }
      return true, first, cursor, visited;
    }

    /** Looks a transaction up; a missing one ends the program. */
    method FactsFor(hash: nat, ghost index: Index) returns (r: Option<(nat, nat, nat)>)
      requires Represents(index)
      ensures r == if hash in index then Some((index[hash].id, index[hash].hash, index[hash].status)) else None
    {
      if hash !in blocks { return None; }
      return Some(blocks[hash]);
    }
  }

  /**
   The paged index agrees with a plain filter of the chain: a transaction of a block in the padded
   window, held by no other block, is found, with exactly that block's facts.
   */
  lemma WindowIsIndexed(ix: Indexer, startMs: int, endMs: int, first: nat, stop: nat, visited: seq<nat>, id: nat,
                        hash: nat)
    requires ix.Valid() && Covered(ix, startMs, endMs, first, stop) && Arranges(visited, first, stop)
    requires ix.genesis <= id <= ix.head && startMs <= ix.Block(id).timestamp <= endMs
             && hash in ix.Block(id).transactions
    requires forall k: nat :: ix.genesis <= k <= ix.head && hash in ix.Block(k).transactions ==> k == id
    ensures hash in IndexOf(ix, visited)
    ensures var block := ix.chain[id - ix.genesis];
            IndexOf(ix, visited)[hash] == Facts(id, block.hash, block.status, block.timestamp)
  {
    IndexOfMeans(ix, visited, hash);
    assert id in visited;
    var k: nat :| LastWith(ix, visited, hash, k) && IndexOf(ix, visited)[hash] == FactsOf(ix, visited[k]);
    assert visited[k] in visited;
  }
}
