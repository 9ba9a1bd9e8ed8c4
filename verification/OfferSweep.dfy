/**
 The offer rebroadcast: the bridge sweeps a maker's book one page per event-loop turn, keeping a cursor
 between turns, while offers are published and withdrawn. Ids stand for their order as strings.
 */
module OfferSweep {
  import opened Wrappers

  const MAX_PAGE_ENTRIES: nat := 128
  const MAX_PAGE_BYTES: nat := 48 * 1024
  const MAX_ANNOUNCEMENT_BYTES: nat := 32 * 1024

  /**
   A retryable offer: its id, whether the bridge takes the id's text (printable, not too long), its
   announcement's encoded length, and its decoded length, if it decodes.
   */
  datatype Offer = Offer(id: nat, plain: bool, encoded: nat, decoded: Option<nat>) {
    /** The bridge sends a payload that decodes, is not empty and is not too long. */
    predicate WellFormed() { decoded.Some? && 0 < decoded.value <= MAX_ANNOUNCEMENT_BYTES }
  }

  type Book = seq<Offer>

  predicate Sorted(book: Book) { forall i, j :: 0 <= i < j < |book| ==> book[i].id < book[j].id }

  /** A page, the id it names if it left offers out, and whether the bridge takes that id's text. */
  datatype Page = Page(announcements: seq<Offer>, next: Option<nat>, plain: bool)

  // ----- The maker's page ----------------------------------------------------------------------------

  function After(book: Book, cursor: Option<nat>): Book {
    if book == [] then []
    else After(book[..|book| - 1], cursor) + (if cursor.None?
                                              || book[|book| - 1].id > cursor.value then [book[|book| - 1]] else [])
  }

  /** The part of a book above a cursor has exactly the offers above it, still in order. */
  lemma {:induction false} AfterMeans(book: Book, cursor: Option<nat>)
    requires Sorted(book)
    ensures Sorted(After(book, cursor))
    ensures forall offer :: offer in After(book, cursor) <==> offer in book && (cursor.None? || offer.id > cursor.value)
    decreases |book|
  {
    if book != [] {
      var front, last := book[..|book| - 1], book[|book| - 1];
      AfterMeans(front, cursor);
      assert forall offer :: offer in book <==> offer in front || offer == last;
      assert forall offer :: offer in front ==> offer.id < last.id;
    }
  }

  function Weight(offers: seq<Offer>): nat {
    if offers == [] then 0 else Weight(offers[..|offers| - 1]) + offers[|offers| - 1].encoded + 3
  }

  /** How many of the offers fill a page: as many as fit both limits, and no more. */
  ghost predicate Fills(offers: seq<Offer>, n: nat) {
    && n <= |offers| && n <= MAX_PAGE_ENTRIES && Weight(offers[..n]) <= MAX_PAGE_BYTES
    && (n < |offers| && n < MAX_PAGE_ENTRIES ==> Weight(offers[..n + 1]) > MAX_PAGE_BYTES)
  }

  /** What a page of these offers may be: a filled prefix that names its last id if it left any out. */
  ghost predicate IsPage(offers: seq<Offer>, page: Page) {
    && Fills(offers, |page.announcements|) && page.announcements == offers[..|page.announcements|]
    && (offers != [] ==> page.announcements != [])
    && page.next == (if |page.announcements| < |offers| then Some(offers[|page.announcements| - 1].id) else None)
    && (page.next.Some? ==> page.plain == offers[|page.announcements| - 1].plain)
  }

  /**
   `offer_announcement_snapshot` after filtering and sorting. It refuses exactly a first offer that no page
   can hold.
   */
  method SnapshotPage(offers: seq<Offer>) returns (r: Option<Page>)
    ensures r.None? <==> offers != [] && offers[0].encoded + 3 > MAX_PAGE_BYTES
    ensures r.Some? ==> IsPage(offers, r.value)
  {
    var n, bytes := 0, 0;
    while n < |offers| && n < MAX_PAGE_ENTRIES
      invariant n <= |offers| && n <= MAX_PAGE_ENTRIES && bytes == Weight(offers[..n]) <= MAX_PAGE_BYTES
      invariant n > 0 ==> offers[0].encoded + 3 <= MAX_PAGE_BYTES
    {
      assert offers[..n + 1][..n] == offers[..n];
      if bytes + offers[n].encoded + 3 > MAX_PAGE_BYTES {
        if n == 0 { return None; }
        break;
      }
      bytes, n := bytes + offers[n].encoded + 3, n + 1;
    }
    if n == |offers| { return Some(Page(offers, None, true)); }
    return Some(Page(offers[..n], Some(offers[n - 1].id), offers[n - 1].plain));
  }

  // ----- The bridge's turn ---------------------------------------------------------------------------

  /** The cursor between turns, the offers handed to the transport in this sweep, and whether the sweep has ended. */
  datatype Sweep = Sweep(cursor: Option<nat>, attempted: set<nat>, ended: bool)

  const START := Sweep(None, {}, false)

  function Sent(announcements: seq<Offer>): set<nat> {
    set i | 0 <= i < |announcements| && announcements[i].WellFormed() :: announcements[i].id
  }

  /** The bridge's tests of a page that does not end the sweep. */
  predicate Advances(cursor: Option<nat>, page: Page) {
    page.announcements != [] && page.next.Some? && page.plain && (cursor.Some? ==> page.next.value > cursor.value)
  }

  function Turn(s: Sweep, reply: Option<Page>): Sweep {
    if s.ended || reply.None? then s
    else
      var attempted := s.attempted + Sent(reply.value.announcements);
      if reply.value.next.None? then Sweep(None, attempted, true)
      else if Advances(s.cursor, reply.value) then Sweep(reply.value.next, attempted, false)
      else s.(attempted := attempted)
  }

  class OfferBroadcaster {
    const maker: bool
    var online: bool
    var subscribed: bool
    var addressValid: bool
    var connected: bool
    var cursor: Option<nat>
    var broadcasting: bool
    ghost var attempted: set<nat>

    constructor (maker: bool)
      ensures this.maker == maker && cursor == None && !broadcasting && attempted == {} && !Ready()
    {
      this.maker := maker;
      online, subscribed, addressValid, connected := false, false, false, false;
      cursor, broadcasting, attempted := None, false, {};
    }

    /** A maker that is online and subscribed, with a valid address and a transport, and not broadcasting already. */
    predicate Ready()
      reads this
    {
      maker && online && subscribed && addressValid && connected && !broadcasting
    }

    /** The announcements of one page: a malformed one is skipped, a refused one passed over. */
    method SendAll(announcements: seq<Offer>, accepted: nat -> bool) returns (hadFailure: bool)
      modifies this`attempted
      ensures attempted == old(attempted) + Sent(announcements)
      ensures hadFailure <==>
              exists i :: 0 <= i < |announcements| && (!announcements[i].WellFormed() || !accepted(announcements[i].id))
    {
      hadFailure := false;
      for i := 0 to |announcements|
        invariant attempted == old(attempted) + Sent(announcements[..i])
        invariant hadFailure <==>
                  exists k :: 0 <= k < i && (!announcements[k].WellFormed() || !accepted(announcements[k].id))
      {
        assert Sent(announcements[..i + 1]) == Sent(announcements[..i]) + (if announcements[i].WellFormed()
               then {announcements[i].id} else {});
        if !announcements[i].WellFormed() {
          hadFailure := true;
        } else {
          attempted := attempted + {announcements[i].id};
          if !accepted(announcements[i].id) { hadFailure := true; }
        }
      }
      assert announcements[..|announcements|] == announcements;
    }

    /** `broadcastOffers`: one page, if the bridge is ready for it. True when the sweep goes on by itself. */
    method BroadcastOffers(reply: Option<Page>, accepted: nat -> bool) returns (continues: bool, ended: bool)
      modifies `cursor, `broadcasting, `attempted
      ensures broadcasting == old(broadcasting)
      ensures var ready := maker && online && subscribed && addressValid && connected && !broadcasting;
              && (!ready ==> !continues && !ended && cursor == old(cursor) && attempted == old(attempted))
              && (ready ==>
                    && Sweep(cursor, attempted, ended) == Turn(Sweep(old(cursor), old(attempted), false), reply)
                    && (continues <==> reply.Some? && Advances(old(cursor), reply.value)))
    {
      continues, ended := false, false;
      if !Ready() { return; }
      if reply.None? { return; }
      broadcasting := true;
      var hadFailure := SendAll(reply.value.announcements, accepted);
      if reply.value.next.None? {
        cursor, ended := None, true;
      } else if reply.value.announcements != [] && reply.value.plain
          && (cursor.None? || reply.value.next.value > cursor.value) {
        cursor, continues := reply.value.next, true;
      }
      broadcasting := false;
    }
  }

  // ----- Sweeps over a changing book --------------------------------------------------------------------

  /** One turn as the maker saw it: its book then, and whether the page arrived. */
  datatype Visit = Visit(book: Book, reply: Option<Page>)

  /** A page that arrives is a page of the book above the cursor. */
  ghost predicate Honest(s: Sweep, v: Visit) {
    Sorted(v.book) && (v.reply.Some? ==> IsPage(After(v.book, s.cursor), v.reply.value))
  }

  ghost predicate AllHonest(s: Sweep, visits: seq<Visit>)
    decreases |visits|
  {
    visits == [] || (Honest(s, visits[0]) && AllHonest(Turn(s, visits[0].reply), visits[1..]))
  }

  function Run(s: Sweep, visits: seq<Visit>): Sweep
    decreases |visits|
  {
    if visits == [] then s else Run(Turn(s, visits[0].reply), visits[1..])
  }

  predicate InEvery(offer: Offer, visits: seq<Visit>) { forall i :: 0 <= i < |visits| ==> offer in visits[i].book }

  /** What the sweep owes a well-formed offer that has been in the book all along. */
  predicate Served(s: Sweep, offer: Offer) {
    s.ended || (s.cursor.Some? && offer.id <= s.cursor.value) ==> offer.id in s.attempted
  }

  lemma TurnServes(s: Sweep, v: Visit, offer: Offer)
    requires Honest(s, v) && offer in v.book && offer.WellFormed() && Served(s, offer)
    ensures Served(Turn(s, v.reply), offer)
  {
    AfterMeans(v.book, s.cursor);
    if !s.ended && v.reply.Some? {
      var offers, page := After(v.book, s.cursor), v.reply.value;
      if s.cursor.None? || offer.id > s.cursor.value {
        var i :| 0 <= i < |offers| && offers[i] == offer;
        if i < |page.announcements| {
          assert page.announcements[i] == offer;
          assert offer.id in Sent(page.announcements);
        } else {
          assert offers[|page.announcements| - 1].id < offer.id;
        }
      }
    }
  }

  /**
   Whatever is published or withdrawn between turns and whichever pages fail, a sweep that ends has
   attempted every well-formed offer that was in the book at each of its turns.
   */
  lemma {:induction false} SweepServesAll(s: Sweep, visits: seq<Visit>, offer: Offer)
    requires AllHonest(s, visits) && InEvery(offer, visits) && offer.WellFormed() && Served(s, offer)
    ensures Served(Run(s, visits), offer)
    decreases |visits|
  {
    if visits != [] {
      TurnServes(s, visits[0], offer);
      SweepServesAll(Turn(s, visits[0].reply), visits[1..], offer);
    }
  }

  lemma EndedSweepAttemptedAll(visits: seq<Visit>, offer: Offer)
    requires AllHonest(START, visits) && InEvery(offer, visits) && Run(START, visits).ended
    requires offer.decoded.Some? && 0 < offer.decoded.value <= 32768
    ensures offer.id in Run(START, visits).attempted
  {
    SweepServesAll(START, visits, offer);
  }

  /** Whatever a sweep attempts is an offer that was in the book at one of its turns and that may be sent. */
  lemma {:induction false} OnlyOffersAreAttempted(s: Sweep, visits: seq<Visit>, id: nat)
    requires AllHonest(s, visits) && id in Run(s, visits).attempted && id !in s.attempted
    ensures exists i, offer ::
              && 0 <= i < |visits| && offer in visits[i].book && offer.id == id
              && offer.decoded.Some? && 0 < offer.decoded.value <= 32768
    decreases |visits|
  {
    var next := Turn(s, visits[0].reply);
    if id in next.attempted {
      var page := visits[0].reply.value;
      var k :| 0 <= k < |page.announcements| && page.announcements[k].WellFormed() && page.announcements[k].id == id;
      AfterMeans(visits[0].book, s.cursor);
      assert page.announcements[k] in After(visits[0].book, s.cursor);
      assert page.announcements[k] in visits[0].book;
    } else {
      OnlyOffersAreAttempted(next, visits[1..], id);
      var i, offer :| 0 <= i < |visits[1..]| && offer in visits[1..][i].book && offer.id == id
                      && offer.decoded.Some? && 0 < offer.decoded.value <= 32768;
      assert offer in visits[i + 1].book;
    }
  }

  // ----- Sweeps end ---------------------------------------------------------------------------------------

  /** The ids of a finite universe that a sweep has not passed. */
  function Ahead(universe: set<nat>, cursor: Option<nat>): set<nat> {
    set id | id in universe && (cursor.None? || id > cursor.value)
  }

  /**
   A page that arrives ends the sweep, or moves its cursor up past at least one id, or, exactly when it names an
   id whose text the bridge refuses, leaves the cursor where it is; a page that fails leaves everything.
   */
  lemma TurnProgresses(s: Sweep, v: Visit, universe: set<nat>)
    requires Honest(s, v) && !s.ended && forall offer :: offer in v.book ==> offer.id in universe
    ensures v.reply.None? ==> Turn(s, v.reply) == s
    ensures v.reply.Some? ==>
            (Turn(s, v.reply).ended <==> v.reply.value.announcements == After(v.book, s.cursor))
    ensures Turn(s, v.reply).ended ==> Turn(s, v.reply).cursor == None
    ensures v.reply.Some? && !Turn(s, v.reply).ended ==>
              && v.reply.value.next.Some?
              && (!v.reply.value.plain <==> Turn(s, v.reply).cursor == s.cursor)
              && (v.reply.value.plain ==>
                    && Turn(s, v.reply).cursor.Some? && (s.cursor.Some? ==>
                                                         Turn(s, v.reply).cursor.value > s.cursor.value)
                    && Ahead(universe, Turn(s, v.reply).cursor) < Ahead(universe, s.cursor))
  {
    AfterMeans(v.book, s.cursor);
    if v.reply.Some? && v.reply.value.next.Some? {
      var offers, page := After(v.book, s.cursor), v.reply.value;
      var last := offers[|page.announcements| - 1];
      assert last in offers;
      assert last.id in Ahead(universe, s.cursor) && last.id !in Ahead(universe, page.next);
    }
  }

  /** How many pages of a run arrived. */
  function Arrived(visits: seq<Visit>): nat
    decreases |visits|
  {
    if visits == [] then 0 else (if visits[0].reply.Some? then 1 else 0) + Arrived(visits[1..])
  }

  /** Every offer of the book has its id in the universe and a text the bridge takes. */
  predicate Plain(book: Book, universe: set<nat>) {
    forall offer :: offer in book ==> offer.id in universe && offer.plain
  }

  /** A sweep over a finite universe of plain ids has ended once more pages have arrived than there are ids ahead. */
  lemma {:induction false} SweepEnds(s: Sweep, visits: seq<Visit>, universe: set<nat>)
    requires AllHonest(s, visits) && forall i :: 0 <= i < |visits| ==> Plain(visits[i].book, universe)
    requires Arrived(visits) > |Ahead(universe, s.cursor)|
    ensures Run(s, visits).ended
    decreases |visits|
  {
    if s.ended {
      EndedStays(s, visits);
    } else {
      var next := Turn(s, visits[0].reply);
      TurnProgresses(s, visits[0], universe);
      assert Plain(visits[0].book, universe);
      if visits[0].reply.Some? && visits[0].reply.value.next.Some? { PlainPages(s, visits[0], universe); }
      if next.ended {
        EndedStays(next, visits[1..]);
      } else {
        if visits[0].reply.Some? { ProperSubsetSize(Ahead(universe, next.cursor), Ahead(universe, s.cursor)); }
        SweepEnds(next, visits[1..], universe);
      }
    }
  }

  lemma PlainPages(s: Sweep, v: Visit, universe: set<nat>)
    requires Honest(s, v) && Plain(v.book, universe) && v.reply.Some? && v.reply.value.next.Some?
    ensures v.reply.value.plain
  {
    AfterMeans(v.book, s.cursor);
    assert After(v.book, s.cursor)[|v.reply.value.announcements| - 1] in After(v.book, s.cursor);
  }

  lemma {:induction false} EndedStays(s: Sweep, visits: seq<Visit>)
    requires s.ended
    ensures Run(s, visits) == s
    decreases |visits|
  {
    if visits != [] { EndedStays(s, visits[1..]); }
  }

  lemma {:induction false} ProperSubsetSize(small: set<nat>, large: set<nat>)
    requires small < large
    ensures |small| < |large|
    decreases |small|
  {
    var y :| y in large && y !in small;
    if small != {} {
      var x :| x in small;
      assert y in large - {x} && y !in small - {x};
      ProperSubsetSize(small - {x}, large - {x});
    }
  }
}
