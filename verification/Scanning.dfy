/**
 Scans of block windows for unique matches. One classifier says what a scan makes of each transaction;
 the scan of a window succeeds exactly when nothing fails to classify and no kind occurs twice, and
 then its slots are the unique matches.
 */
module Scanning {
  import opened Wrappers
  import opened Nssa
  import opened Chain

  // ----- Unique matches -------------------------------------------------------------------------

  /** What a scan makes of one transaction. */
  datatype Classified<+F> = Skip | Fail(error: ObservationError) | First(first: F) | Second(second: F)

  /** The two slots a scan fills; a single-slot scan uses the first. */
  datatype Slots<+F> = Slots(first: Option<F>, second: Option<F>)

  function Place<F>(slots: Slots<F>, item: Classified<F>, duplicate: ObservationError): Result<Slots<F>,
      ObservationError> {
    match item
    case Skip => Ok(slots)
    case Fail(error) => Err(error)
    case First(f) => if slots.first.Some? then Err(duplicate) else Ok(slots.(first := Some(f)))
    case Second(f) => if slots.second.Some? then Err(duplicate) else Ok(slots.(second := Some(f)))
  }

  /** The left-to-right scan that stops at the first failure or duplicate. */
  function Scan<F>(items: seq<Classified<F>>, duplicate: ObservationError): Result<Slots<F>, ObservationError> {
    if items == [] then Ok(Slots(None, None))
    else
      match Scan(items[..|items| - 1], duplicate)
      case Err(e) => Err(e)
      case Ok(slots) => Place(slots, items[|items| - 1], duplicate)
  }

  /** What the two slots of a finished scan mean, without reference to the scan. */
  predicate SlotsMean<F(==)>(items: seq<Classified<F>>, slots: Slots<F>) {
    && (slots.first.None? <==> forall i :: 0 <= i < |items| ==> !items[i].First?)
    && (slots.first.Some? ==> exists i :: 0 <= i < |items| && items[i] == First(slots.first.value))
    && (slots.second.None? <==> forall i :: 0 <= i < |items| ==> !items[i].Second?)
    && (slots.second.Some? ==> exists i :: 0 <= i < |items| && items[i] == Second(slots.second.value))
  }

  /** No transaction fails to classify and no kind occurs twice. */
  predicate Unambiguous<F>(items: seq<Classified<F>>) {
    && (forall i :: 0 <= i < |items| ==> !items[i].Fail?)
    && (forall i, j :: 0 <= i < j < |items| ==>
        !(items[i].First? && items[j].First?) && !(items[i].Second? && items[j].Second?))
  }

  /** A scan succeeds exactly on unambiguous input, and its slots are then the unique matches. */
  lemma {:induction false} ScanFindsUniqueMatches<F>(items: seq<Classified<F>>, duplicate: ObservationError)
    ensures Scan(items, duplicate).Ok? <==> Unambiguous(items)
    ensures Scan(items, duplicate).Ok? ==> SlotsMean(items, Scan(items, duplicate).value)
    decreases |items|
  {
    if items != [] {
      var front, last := items[..|items| - 1], items[|items| - 1];
      ScanFindsUniqueMatches(front, duplicate);
      assert forall i :: 0 <= i < |front| ==> front[i] == items[i];
      if Scan(front, duplicate).Ok? {
        var slots := Scan(front, duplicate).value;
        if last.First? && slots.first.Some? {
          var i :| 0 <= i < |front| && front[i] == First(slots.first.value);
          assert items[i].First? && items[|items| - 1].First?;
        }
        if last.Second? && slots.second.Some? {
          var i :| 0 <= i < |front| && front[i] == Second(slots.second.value);
          assert items[i].Second? && items[|items| - 1].Second?;
        }
        assert last == items[|items| - 1];
      } else {
        assert !Unambiguous(front);
      }
    }
  }

  // ----- Scanning blocks ------------------------------------------------------------------------

  /** What a scan makes of the transaction at an index of a block. */
  type Classifier<!F> = (Block, nat) -> Classified<F>

  function ItemsOfBlock<F>(classify: Classifier<F>, block: Block): seq<Classified<F>> {
    seq(|block.transactions|, i requires 0 <= i < |block.transactions| => classify(block, i))
  }

  function ItemsOf<F>(classify: Classifier<F>, blocks: Blocks): seq<Classified<F>> {
    if blocks == [] then [] else ItemsOf(classify, blocks[..|blocks| - 1]) + ItemsOfBlock(classify,
        blocks[|blocks| - 1])
  }

  /** The inner loop of the scans: the transactions of one block, after the blocks before it. */
  method ScanBlock<F>(classify: Classifier<F>, ghost before: Blocks, slots: Slots<F>, block: Block,
                      duplicate: ObservationError)
    returns (r: Result<Slots<F>, ObservationError>)
    requires Scan(ItemsOf(classify, before), duplicate) == Ok(slots)
    ensures r == Scan(ItemsOf(classify, before + [block]), duplicate)
  {
    ghost var items, here := ItemsOf(classify, before), ItemsOfBlock(classify, block);
    assert (before + [block])[..|before|] == before;
    assert items + here[..0] == items && here[..|here|] == here;
    var current := slots;
    for i := 0 to |block.transactions|
      invariant Scan(items + here[..i], duplicate) == Ok(current)
    {
      ScanGrows(items, here, i, duplicate);
      var placed := Place(current, classify(block, i), duplicate);
      if placed.Err? {
        ScanStops(items + here[..i + 1], items + here, duplicate);
        return Err(placed.error);
      }
      current := placed.value;
    }
    return Ok(current);
  }

  /** The nested loops of the scans: blocks in order, transactions in order, stop at the first failure or duplicate. */
  method ScanBlocks<F>(classify: Classifier<F>, blocks: Blocks, duplicate: ObservationError)
      returns (r: Result<Slots<F>, ObservationError>)
    ensures r == Scan(ItemsOf(classify, blocks), duplicate)
  {
    var slots: Slots<F> := Slots(None, None);
    for b := 0 to |blocks|
      invariant Scan(ItemsOf(classify, blocks[..b]), duplicate) == Ok(slots)
    {
      assert blocks[..b + 1] == blocks[..b] + [blocks[b]];
      var scanned := ScanBlock(classify, blocks[..b], slots, blocks[b], duplicate);
      if scanned.Err? {
        ItemsPrefix(classify, blocks, b + 1);
        ScanStops(ItemsOf(classify, blocks[..b + 1]), ItemsOf(classify, blocks), duplicate);
        return scanned;
      }
      slots := scanned.value;
    }
    assert blocks[..|blocks|] == blocks;
    return Ok(slots);
  }

  lemma ScanGrows<F>(before: seq<Classified<F>>, here: seq<Classified<F>>, i: nat, duplicate: ObservationError)
    requires i < |here| && Scan(before + here[..i], duplicate).Ok?
    ensures Scan(before + here[..i + 1], duplicate) == Place(Scan(before + here[..i], duplicate).value, here[i],
                                                             duplicate)
  {
    var items := before + here[..i + 1];
    assert items[..|items| - 1] == before + here[..i];
  }

  /** A scan that has failed stays failed, whatever follows. */
  lemma {:induction false} ScanStops<F>(items: seq<Classified<F>>, all: seq<Classified<F>>, duplicate: ObservationError)
    requires items <= all && Scan(items, duplicate).Err?
    ensures Scan(all, duplicate) == Scan(items, duplicate)
    decreases |all|
  {
    if |items| == |all| {
      assert items == all;
    } else {
      ScanStops(items, all[..|all| - 1], duplicate);
    }
  }

  lemma {:induction false} ItemsPrefix<F>(classify: Classifier<F>, blocks: Blocks, n: nat)
    requires n <= |blocks|
    ensures ItemsOf(classify, blocks[..n]) <= ItemsOf(classify, blocks)
    decreases |blocks|
  {
    if n == |blocks| {
      assert blocks[..n] == blocks;
    } else {
      ItemsPrefix(classify, blocks[..|blocks| - 1], n);
      assert blocks[..|blocks| - 1][..n] == blocks[..n];
    }
  }

  lemma {:induction false} ItemsAreTransactions<F>(classify: Classifier<F>, blocks: Blocks, item: Classified<F>)
    ensures item in ItemsOf(classify, blocks) <==>
            exists b: nat, j: nat :: b < |blocks| && j < |blocks[b].transactions| && classify(blocks[b], j) == item
    decreases |blocks|
  {
    if blocks != [] {
      var front, last := blocks[..|blocks| - 1], blocks[|blocks| - 1];
      ItemsAreTransactions(classify, front, item);
      var here := ItemsOfBlock(classify, last);
      if item in here {
        var j :| 0 <= j < |here| && here[j] == item;
        assert classify(blocks[|blocks| - 1], j) == item;
      }
      forall b: nat, j: nat | b < |blocks| && j < |blocks[b].transactions| && classify(blocks[b], j) == item
        ensures item in ItemsOf(classify, blocks)
      {
        if b < |front| {
          assert front[b] == blocks[b];
        } else {
          assert here[j] == item;
        }
      }
    }
  }

  // ----- The atomic reference -------------------------------------------------------------------

  datatype Position = Position(hash: BlockHash, height: nat, index: nat)

  datatype Found = Found(prepared: Prepared, position: Position, accounts: seq<AccountId>)

  datatype Verdict = FoundAt(found: Found) | Absent | UnknownOrPending

  /** Lexicographic order of chain positions. */
  predicate Before(a: Position, b: Position) {
    a.height < b.height || (a.height == b.height && a.index < b.index)
  }

  /** A pair's second transaction may not precede or share the position of its first. */
  predicate InOrder(slots: Slots<Found>) {
    slots.first.Some? && slots.second.Some? ==> Before(slots.first.value.position, slots.second.value.position)
  }

  function VerdictOf(slot: Option<Found>, missingIsAbsent: bool): Verdict {
    match slot
    case Some(found) => FoundAt(found)
    case None => if missingIsAbsent then Absent else UnknownOrPending
  }

  function AtomicScan(genesis: nat, classify: Classifier<Found>, exact: bool, window: Window,
                      pinned: Blocks): Result<Slots<Found>, ObservationError> {
    Scan(ItemsOf(classify, WindowBlocks(genesis, pinned, window)), if exact then InvalidObservation else Ambiguous)
  }

  predicate Covers(genesis: nat, pinned: Blocks, window: Window) { genesis + |pinned| >= window.0 + window.1 }

  /** The verdicts from one scan of one chain, with nothing moving. */
  function AtomicVerdicts(genesis: nat, classify: Classifier<Found>, exact: bool, window: Window, pinned: Blocks)
    : Result<(Verdict, Verdict), ObservationError>
  {
    match AtomicScan(genesis, classify, exact, window, pinned)
    case Err(e) => Err(e)
    case Ok(slots) =>
      if !InOrder(slots) then Err(InvalidObservation)
      else
        var missingIsAbsent := !exact && Covers(genesis, pinned, window);
        Ok((VerdictOf(slots.first, missingIsAbsent), VerdictOf(slots.second, missingIsAbsent)))
  }

  /** Some transaction at a height of the window classifies as `item`. */
  ghost predicate Occurs<F>(genesis: nat, classify: Classifier<F>, window: Window, pinned: Blocks,
                            item: Classified<F>) {
    exists i: nat, j: nat ::
      && i < |pinned| && window.0 <= genesis + i < window.0 + window.1 && j < |pinned[i].transactions|
      && classify(pinned[i], j) == item
  }

  lemma OccursInWindowBlocks<F>(genesis: nat, classify: Classifier<F>, window: Window, pinned: Blocks,
                                item: Classified<F>)
    ensures Occurs(genesis, classify, window, pinned, item) <==>
            item in ItemsOf(classify, WindowBlocks(genesis, pinned, window))
  {
    var blocks := WindowBlocks(genesis, pinned, window);
    ItemsAreTransactions(classify, blocks, item);
    var start := Max(window.0, genesis) - genesis;
    forall b: nat | b < |blocks|
        ensures start + b < |pinned| && blocks[b] == pinned[start + b] && genesis + start + b < window.0 + window.1 {}
    forall i: nat | i < |pinned| && window.0 <= genesis + i < window.0 + window.1
      ensures 0 <= i - start < |blocks| && blocks[i - start] == pinned[i] {}
  }

  lemma FirstOccurs<F>(genesis: nat, classify: Classifier<F>, window: Window, pinned: Blocks,
                       duplicate: ObservationError)
    requires Scan(ItemsOf(classify, WindowBlocks(genesis, pinned, window)), duplicate).Ok?
    ensures var first := Scan(ItemsOf(classify, WindowBlocks(genesis, pinned, window)), duplicate).value.first;
            first.Some? ==> Occurs(genesis, classify, window, pinned, First(first.value))
  {
    var items := ItemsOf(classify, WindowBlocks(genesis, pinned, window));
    ScanFindsUniqueMatches(items, duplicate);
    var first := Scan(items, duplicate).value.first;
    if first.Some? { OccursInWindowBlocks(genesis, classify, window, pinned, First(first.value)); }
  }

  /** The first slot holds a match exactly when it occurs in the window. */
  lemma FirstIsTheMatch<F>(genesis: nat, classify: Classifier<F>, window: Window, pinned: Blocks,
                           duplicate: ObservationError, f: F)
    requires Scan(ItemsOf(classify, WindowBlocks(genesis, pinned, window)), duplicate).Ok?
    ensures Scan(ItemsOf(classify, WindowBlocks(genesis, pinned, window)), duplicate).value.first == Some(f) <==>
            Occurs(genesis, classify, window, pinned, First(f))
  {
    var items := ItemsOf(classify, WindowBlocks(genesis, pinned, window));
    ScanFindsUniqueMatches(items, duplicate);
    OccursInWindowBlocks(genesis, classify, window, pinned, First(f));
    var first := Scan(items, duplicate).value.first;
    if first.Some? {
      var k :| 0 <= k < |items| && items[k] == First(first.value);
      assert forall i :: 0 <= i < |items| && items[i].First? ==> i == k;
    }
  }

  /** A filled slot is the one match of its kind in the window, and an empty one means there is none. */
  lemma SlotsAreUniqueMatches(genesis: nat, classify: Classifier<Found>, exact: bool, window: Window, pinned: Blocks,
                              f: Found)
    requires AtomicScan(genesis, classify, exact, window, pinned).Ok?
    ensures var slots := AtomicScan(genesis, classify, exact, window, pinned).value;
            && (slots.first == Some(f) <==> Occurs(genesis, classify, window, pinned, First(f)))
            && (slots.second == Some(f) <==> Occurs(genesis, classify, window, pinned, Second(f)))
            && (slots.first.Some? ==> Occurs(genesis, classify, window, pinned, First(slots.first.value)))
            && (slots.second.Some? ==> Occurs(genesis, classify, window, pinned, Second(slots.second.value)))
  {
    var items := ItemsOf(classify, WindowBlocks(genesis, pinned, window));
    ScanFindsUniqueMatches(items, if exact then InvalidObservation else Ambiguous);
    var slots := AtomicScan(genesis, classify, exact, window, pinned).value;
    OccursInWindowBlocks(genesis, classify, window, pinned, First(f));
    OccursInWindowBlocks(genesis, classify, window, pinned, Second(f));
    if slots.first.Some? {
      OccursInWindowBlocks(genesis, classify, window, pinned, First(slots.first.value));
      var k :| 0 <= k < |items| && items[k] == First(slots.first.value);
      assert forall i :: 0 <= i < |items| && items[i] == First(f) ==> i == k;
    }
    if slots.second.Some? {
      OccursInWindowBlocks(genesis, classify, window, pinned, Second(slots.second.value));
      var k :| 0 <= k < |items| && items[k] == Second(slots.second.value);
      assert forall i :: 0 <= i < |items| && items[i] == Second(f) ==> i == k;
    }
  }

  /**
   The verdicts in plain terms: found is the one match in the window, absent means discovery over a
   fully covered window without a match, anything else is unknown; and a found second transaction lies
   strictly after a found first one.
   */
  lemma VerdictsMean(genesis: nat, classify: Classifier<Found>, exact: bool, window: Window, pinned: Blocks, f: Found)
    requires AtomicVerdicts(genesis, classify, exact, window, pinned).Ok?
    ensures var v := AtomicVerdicts(genesis, classify, exact, window, pinned).value;
            var covered := !exact && Covers(genesis, pinned, window);
            && (v.0 == FoundAt(f) <==> Occurs(genesis, classify, window, pinned, First(f)))
            && (v.1 == FoundAt(f) <==> Occurs(genesis, classify, window, pinned, Second(f)))
            && (!v.0.FoundAt? ==> !Occurs(genesis, classify, window, pinned, First(f)) && (v.0 == Absent <==> covered))
            && (!v.1.FoundAt? ==> !Occurs(genesis, classify, window, pinned, Second(f)) && (v.1 == Absent <==> covered))
            && (v.0.FoundAt? && v.1.FoundAt? ==> ComesAfter(v.1.found.position, v.0.found.position))
  {
    SlotsAreUniqueMatches(genesis, classify, exact, window, pinned, f);
  }

  /** At a greater height, or further on in the same block. */
  predicate ComesAfter(b: Position, a: Position) {
    (b.height == a.height ==> b.index > a.index) && (b.height != a.height ==> b.height > a.height)
  }

  /** Whatever first and second match occur in the window, the second comes after the first. */
  ghost predicate OccurInOrder(genesis: nat, classify: Classifier<Found>, window: Window, pinned: Blocks) {
    forall f, g ::
      (Occurs(genesis, classify, window, pinned, First(f)) && Occurs(genesis, classify, window, pinned, Second(g))) ==>
        ComesAfter(g.position, f.position)
  }

  lemma InOrderMeans(genesis: nat, classify: Classifier<Found>, exact: bool, window: Window, pinned: Blocks)
    requires AtomicScan(genesis, classify, exact, window, pinned).Ok?
    ensures InOrder(AtomicScan(genesis, classify, exact, window, pinned).value) <==>
            OccurInOrder(genesis, classify, window, pinned)
  {
    var slots := AtomicScan(genesis, classify, exact, window, pinned).value;
    forall f, g | Occurs(genesis, classify, window, pinned, First(f))
                  && Occurs(genesis, classify, window, pinned, Second(g))
      ensures slots == Slots(Some(f), Some(g))
    {
      SlotsAreUniqueMatches(genesis, classify, exact, window, pinned, f);
      SlotsAreUniqueMatches(genesis, classify, exact, window, pinned, g);
    }
    if slots.first.Some? && slots.second.Some? {
      SlotsAreUniqueMatches(genesis, classify, exact, window, pinned, slots.first.value);
    }
  }

  /**
   There are verdicts exactly when nothing in the window fails to classify, no kind occurs twice, and a first and a
   second match come in that order.
   */
  lemma VerdictsExist(genesis: nat, classify: Classifier<Found>, exact: bool, window: Window, pinned: Blocks)
    ensures AtomicVerdicts(genesis, classify, exact, window, pinned).Ok? <==>
              && Unambiguous(ItemsOf(classify, WindowBlocks(genesis, pinned, window)))
              && OccurInOrder(genesis, classify, window, pinned)
  {
    ScanFindsUniqueMatches(ItemsOf(classify, WindowBlocks(genesis, pinned, window)),
                           if exact then InvalidObservation else Ambiguous);
    if AtomicScan(genesis, classify, exact, window, pinned).Ok? {
      InOrderMeans(genesis, classify, exact, window, pinned);
    }
  }

  /** Where nothing fails to classify, a failed scan found a kind twice: invalid if exact, ambiguous if discovering. */
  lemma DuplicatesAreReported(genesis: nat, classify: Classifier<Found>, exact: bool, window: Window, pinned: Blocks)
    requires AtomicScan(genesis, classify, exact, window, pinned).Err?
    requires forall error :: !Occurs(genesis, classify, window, pinned, Fail(error))
    ensures exact ==> AtomicVerdicts(genesis, classify, exact, window, pinned) == Err(InvalidObservation)
    ensures !exact ==> AtomicVerdicts(genesis, classify, exact, window, pinned) == Err(Ambiguous)
  {
    var items := ItemsOf(classify, WindowBlocks(genesis, pinned, window));
    var error := AtomicScan(genesis, classify, exact, window, pinned).error;
    OccursInWindowBlocks(genesis, classify, window, pinned, Fail(error));
    if error != (if exact then InvalidObservation else Ambiguous) {
      NoSuchError(items, if exact then InvalidObservation else Ambiguous, error);
    }
  }

  /** A scan reports only the errors its classifier makes and the one for duplicates. */
  lemma {:induction false} ScanErrors<F>(classify: Classifier<F>, blocks: Blocks, duplicate: ObservationError,
                                         error: ObservationError)
    requires duplicate != error && forall block: Block, i: nat :: classify(block, i) != Fail(error)
    ensures Scan(ItemsOf(classify, blocks), duplicate) != Err(error)
  {
    var items := ItemsOf(classify, blocks);
    forall i | 0 <= i < |items| ensures items[i] != Fail(error) {
      ItemsAreTransactions(classify, blocks, items[i]);
    }
    NoSuchError(items, duplicate, error);
  }

  lemma {:induction false} NoSuchError<F>(items: seq<Classified<F>>, duplicate: ObservationError,
                                          error: ObservationError)
    requires duplicate != error && forall i :: 0 <= i < |items| ==> items[i] != Fail(error)
    ensures Scan(items, duplicate) != Err(error)
    decreases |items|
  {
    if items != [] {
      NoSuchError(items[..|items| - 1], duplicate, error);
    }
  }
}
