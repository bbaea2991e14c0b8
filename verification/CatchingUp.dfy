/**
 * What a joining phone is sent puts its view on the way to the room's: the pages of its catch-up, bundle by bundle,
 * say every row past its cursor in ascending order, and nothing that is not so.
 */
module CatchingUp {
  import opened RelayTypes
  import opened RoomRules
  import opened Replica
  import opened RoomProofs
  import opened Backlog
  import opened PhoneRules
  import opened System
  import opened Convergence

  // ----- pages by number -----

  predicate PageBefore(a: seq<Row>, b: seq<Row>) {
    forall r, q | r in a && q in b :: r.seqNo < q.seqNo
  }

  ghost predicate PagesFrom(st: RoomState, pages: seq<seq<Row>>, cursor: int) {
    && (forall page | page in pages :: AllBetween(st.rows, page, cursor, st.top))
    && (forall i, j | 0 <= i < j < |pages| :: PageBefore(pages[i], pages[j]))
    && (forall t | t in st.rows && cursor < st.rows[t].seqNo :: OnAPage(pages, st.rows[t]))
  }

  predicate OnAPage(pages: seq<seq<Row>>, r: Row) {
    exists page :: page in pages && r in page
  }

  lemma {:induction false} PagesOrderMore(st: RoomState, page: seq<Row>, rest: seq<seq<Row>>, end: int)
    requires forall r | r in page :: r.seqNo <= end
    requires PagesFrom(st, rest, end)
    ensures forall i, j | 0 <= i < j < |[page] + rest| :: PageBefore(([page] + rest)[i], ([page] + rest)[j])
  {
    var pages := [page] + rest;
    forall i, j | 0 <= i < j < |pages|
      ensures PageBefore(pages[i], pages[j])
    {
      assert pages[j] == rest[j - 1] && rest[j - 1] in rest;
      if i > 0 {
        assert PageBefore(rest[i - 1], rest[j - 1]);
      } else {
        assert AllBetween(st.rows, rest[j - 1], end, st.top);
      }
    }
  }

  /** A page, and the pages of the log after its last row. */
  lemma {:induction false} OnePageMore(st: RoomState, page: seq<Row>, rest: seq<seq<Row>>, cursor: int)
    requires page != [] && Ascending(page) && AllBetween(st.rows, page, cursor, st.top)
    requires forall t | t in st.rows && cursor < st.rows[t].seqNo <= page[|page| - 1].seqNo :: st.rows[t] in page
    requires PagesFrom(st, rest, page[|page| - 1].seqNo)
    ensures PagesFrom(st, [page] + rest, cursor)
  {
    var pages := [page] + rest;
    var end := page[|page| - 1].seqNo;
    assert page[|page| - 1] in page && forall r | r in page :: r.seqNo <= end;
    assert forall x :: x in pages <==> x == page || x in rest;
    PagesOrderMore(st, page, rest, end);
    forall t | t in st.rows && cursor < st.rows[t].seqNo
      ensures OnAPage(pages, st.rows[t])
    {
      if st.rows[t].seqNo > end {
        assert OnAPage(rest, st.rows[t]);
      } else {
        assert page in pages;
      }
    }
  }

  lemma {:induction false} NoPages(st: RoomState, cursor: int)
    requires WellFormed(st) && RowsBetween(st.rows, cursor, st.top) == []
    ensures PagesFrom(st, [], cursor)
  {
    BetweenIsTheLog(st, cursor, st.top);
    assert forall t | t in st.rows :: RowOk(t, st.rows[t], st.top);
  }

  /** The first page is the log from the cursor to its last row. */
  lemma {:induction false} FirstPage(st: RoomState, cursor: int)
    requires WellFormed(st) && After(st, cursor, BACKLOG_PAGE) != []
    ensures var page := After(st, cursor, BACKLOG_PAGE);
            && Ascending(page)
            && AllBetween(st.rows, page, cursor, st.top)
            && (forall t | t in st.rows && cursor < st.rows[t].seqNo <= page[|page| - 1].seqNo :: st.rows[t] in page)
  {
    var log := RowsBetween(st.rows, cursor, st.top);
    var page := After(st, cursor, BACKLOG_PAGE);
    BetweenIsTheLog(st, cursor, st.top);
    assert page == log[..|page|];
    forall t | t in st.rows && cursor < st.rows[t].seqNo <= page[|page| - 1].seqNo
      ensures st.rows[t] in page
    {
      assert RowOk(t, st.rows[t], st.top);
      var i :| 0 <= i < |log| && log[i] == st.rows[t];
      assert log[|page| - 1] == page[|page| - 1];
      assert i < |page|;
      assert page[i] == log[i];
    }
  }

  lemma {:induction false} PagesAreFrom(st: RoomState, cursor: int)
    requires WellFormed(st)
    ensures PagesFrom(st, Pages(st, cursor), cursor)
    decreases st.top - cursor
  {
    var page := After(st, cursor, BACKLOG_PAGE);
    if page == [] {
      NoPages(st, cursor);
    } else {
      PageMoves(st, cursor);
      if |page| == BACKLOG_PAGE {
        PagesAreFrom(st, page[|page| - 1].seqNo);
      }
      PageThenRest(st, cursor);
    }
  }

  lemma {:induction false} PageThenRest(st: RoomState, cursor: int)
    requires WellFormed(st) && After(st, cursor, BACKLOG_PAGE) != []
    requires var page := After(st, cursor, BACKLOG_PAGE);
             |page| == BACKLOG_PAGE ==> PagesFrom(st, Pages(st, page[|page| - 1].seqNo), page[|page| - 1].seqNo)
    ensures PagesFrom(st, Pages(st, cursor), cursor)
  {
    var page := After(st, cursor, BACKLOG_PAGE);
    var end := page[|page| - 1].seqNo;
    FirstPage(st, cursor);
    if |page| < BACKLOG_PAGE {
      ShortPage(st, cursor);
      NoPages(st, end);
      OnePageMore(st, page, [], cursor);
      assert [page] + [] == [page];
    } else {
      OnePageMore(st, page, Pages(st, end), cursor);
    }
  }

  lemma {:induction false} ShortPage(st: RoomState, cursor: int)
    requires WellFormed(st) && 0 < |After(st, cursor, BACKLOG_PAGE)| < BACKLOG_PAGE
    ensures var page := After(st, cursor, BACKLOG_PAGE); RowsBetween(st.rows, page[|page| - 1].seqNo, st.top) == []
  {
    LogAfter(st, cursor, st.top, |After(st, cursor, BACKLOG_PAGE)| - 1);
  }

  // ----- pages as bundles -----

  lemma {:induction false} BundlesArePages(pages: seq<seq<Row>>)
    ensures |PagesMessages(pages)| == |pages|
    ensures forall i | 0 <= i < |pages| :: PagesMessages(pages)[i] == PageMessages(pages[i])
  {
    if pages != [] {
      BundlesArePages(pages[1..]);
    }
  }

  lemma {:induction false} PageSays(page: seq<Row>)
    ensures forall n :: n in AllNews(PageMessages(page)) <==> exists r :: r in page && n == RowNews(r)
  {
    PageNews(page);
    SameMembers(AllNews(PageMessages(page)), RowsNews(page));
    RowsNewsIndex(page);
    forall r | r in page
      ensures RowNews(r) in RowsNews(page)
    {
      var i :| 0 <= i < |page| && page[i] == r;
      assert RowsNews(page)[i] == RowNews(r);
    }
  }

  lemma {:induction false} PageNoHello(page: seq<Row>)
    ensures NoHello(PageMessages(page))
  {
    UndosNoHello(page);
  }

  lemma {:induction false} UndosNoHello(page: seq<Row>)
    ensures NoHello(Undos(page))
  {
    if page != [] {
      UndosNoHello(page[1..]);
    }
  }

  lemma {:induction false} BundlesTimely(st: RoomState, pages: seq<seq<Row>>, cursor: int)
    requires WellFormed(st) && PagesFrom(st, pages, cursor)
    ensures NoHellos(PagesMessages(pages)) && Timely(st, cursor, PagesMessages(pages), st.top)
  {
    BundlesArePages(pages);
    forall b | b in PagesMessages(pages)
      ensures NoHello(b)
      ensures forall n | n in AllNews(b) :: IsUuid(n.ticketId) && cursor < n.fact.seqNo <= st.top && Sound(st, n)
    {
      var i :| 0 <= i < |pages| && PagesMessages(pages)[i] == b;
      PageNoHello(pages[i]);
      PageSays(pages[i]);
      assert pages[i] in pages;
    }
  }

  lemma {:induction false} BundlesInOrder(st: RoomState, pages: seq<seq<Row>>, cursor: int)
    requires PagesFrom(st, pages, cursor)
    ensures InOrder(PagesMessages(pages))
  {
    BundlesArePages(pages);
    var q := PagesMessages(pages);
    forall i, j | 0 <= i < j < |q|
      ensures Before(q[i], q[j])
    {
      PageSays(pages[i]);
      PageSays(pages[j]);
      assert PageBefore(pages[i], pages[j]);
    }
  }

  lemma {:induction false} BundlesCover(st: RoomState, own: set<int>, pages: seq<seq<Row>>, cursor: int)
    requires PagesFrom(st, pages, cursor)
    ensures Covers(st, own, cursor, PagesMessages(pages), st.top)
  {
    BundlesArePages(pages);
    forall t | t in st.rows && cursor < st.rows[t].seqNo
      ensures Brings(PagesMessages(pages), RowNews(st.rows[t]))
    {
      assert OnAPage(pages, st.rows[t]);
      var i :| 0 <= i < |pages| && st.rows[t] in pages[i];
      PageSays(pages[i]);
      assert PagesMessages(pages)[i] in PagesMessages(pages);
    }
  }

  // ----- a phone joins -----

  lemma {:induction false} CatchUpOnTheWay(room: RoomState, own: set<int>, v: View)
    requires WellFormed(room) && room.epoch != "" && Knows(room, own, v)
    ensures var q := CatchUp(room, v);
            && q != [] && IsHello(q[0]) && q[0][0].epoch == room.epoch
            && Knows(room, own, HearHello(v, room.epoch))
            && OnTheWay(room, own, HearHello(v, room.epoch), q[1..], room.top)
  {
    var start := Start(room, v.heard, Cursor(v));
    var pages := Pages(room, start);
    assert HearHello(v, room.epoch).heard == start;
    assert CatchUp(room, v)[1..] == PagesMessages(pages);
    PagesAreFrom(room, start);
    BundlesTimely(room, pages, start);
    BundlesInOrder(room, pages, start);
    BundlesCover(room, own, pages, start);
    forall t | t in room.rows
      ensures room.rows[t].seqNo >= 1
    {
      assert RowOk(t, room.rows[t], room.top);
    }
  }
}
