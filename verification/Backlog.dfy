/** The paged catch-up: it ends, and it says everything after the cursor exactly once. */
module Backlog {
  import opened Common
  import opened RelayTypes
  import opened RoomRules
  import opened Replica
  import opened RoomProofs
  import opened RoomTheorems

  // ----- the log by sequence number -----

  ghost predicate InRoom(rows: map<string, Row>, r: Row) {
    r.ticketId in rows && rows[r.ticketId] == r
  }

  lemma SeqRowInRoom(st: RoomState, s: int)
    requires WellFormed(st) && HasSeq(st.rows, s)
    ensures InRoom(st.rows, SeqRow(st.rows, s)) && SeqRow(st.rows, s).seqNo == s
  {
    var t :| t in st.rows && st.rows[t].seqNo == s && SeqRow(st.rows, s) == st.rows[t];
    assert RowOk(t, st.rows[t], st.top);
  }

  ghost predicate Ascending(page: seq<Row>) {
    forall i, j | 0 <= i < j < |page| :: page[i].seqNo < page[j].seqNo
  }

  ghost predicate AllBetween(rows: map<string, Row>, page: seq<Row>, from: int, last: int) {
    forall r | r in page :: InRoom(rows, r) && from < r.seqNo <= last
  }

  lemma {:induction false} BetweenIsTheLog(st: RoomState, from: int, last: int)
    requires WellFormed(st)
    ensures var log := RowsBetween(st.rows, from, last);
            && AllBetween(st.rows, log, from, last)
            && Ascending(log)
            && (forall t | t in st.rows && from < st.rows[t].seqNo <= last :: st.rows[t] in log)
    decreases last - from
  {
    if from < last {
      BetweenIsTheLog(st, from + 1, last);
      if HasSeq(st.rows, from + 1) {
        SeqRowInRoom(st, from + 1);
        SameNumberSameRow(st, SeqRow(st.rows, from + 1));
      }
      assert forall t | t in st.rows && st.rows[t].seqNo == from + 1 :: HasSeq(st.rows, from + 1);
    }
  }

  lemma SameNumberSameRow(st: RoomState, r: Row)
    requires WellFormed(st) && InRoom(st.rows, r)
    ensures forall t | t in st.rows && st.rows[t].seqNo == r.seqNo :: st.rows[t] == r
  {
  }

  /** The log after one of its rows is the rest of the log. */
  lemma {:induction false} LogAfter(st: RoomState, from: int, last: int, k: nat)
    requires WellFormed(st) && k < |RowsBetween(st.rows, from, last)|
    ensures var log := RowsBetween(st.rows, from, last);
            from < log[k].seqNo && log[k + 1..] == RowsBetween(st.rows, log[k].seqNo, last)
    decreases last - from
  {
    var rest := RowsBetween(st.rows, from + 1, last);
    if HasSeq(st.rows, from + 1) {
      SeqRowInRoom(st, from + 1);
      if k > 0 {
        LogAfter(st, from + 1, last, k - 1);
        assert RowsBetween(st.rows, from, last)[k + 1..] == rest[k..];
      }
    } else {
      LogAfter(st, from + 1, last, k);
    }
  }

  // ----- pages -----

  /** The pages a catch-up sends from a cursor: it stops at an empty or a short one. */
  ghost function Pages(st: RoomState, cursor: int): seq<seq<Row>>
    requires WellFormed(st)
    decreases st.top - cursor
  {
    var page := After(st, cursor, BACKLOG_PAGE);
    if page == [] then []
    else if |page| < BACKLOG_PAGE then [page]
    else
      PageMoves(st, cursor);
      [page] + Pages(st, page[|page| - 1].seqNo)
  }

  lemma {:induction false} PageMoves(st: RoomState, cursor: int)
    requires WellFormed(st) && After(st, cursor, BACKLOG_PAGE) != []
    ensures var page := After(st, cursor, BACKLOG_PAGE); cursor < page[|page| - 1].seqNo <= st.top
  {
    BetweenIsTheLog(st, cursor, st.top);
    var page := After(st, cursor, BACKLOG_PAGE);
    assert page[|page| - 1] in RowsBetween(st.rows, cursor, st.top);
  }

  /** A full page is followed by the log after its last row. */
  lemma {:induction false} FullPage(st: RoomState, cursor: int)
    requires WellFormed(st) && |After(st, cursor, BACKLOG_PAGE)| == BACKLOG_PAGE
    ensures var page := After(st, cursor, BACKLOG_PAGE);
            RowsBetween(st.rows, cursor, st.top) == page + RowsBetween(st.rows, page[|page| - 1].seqNo, st.top)
  {
    LogAfter(st, cursor, st.top, BACKLOG_PAGE - 1);
  }

  /** The pages, one after another, are the log after the cursor. */
  lemma {:induction false} PagesAreTheLog(st: RoomState, cursor: int)
    requires WellFormed(st)
    ensures Concat(Pages(st, cursor)) == RowsBetween(st.rows, cursor, st.top)
    decreases st.top - cursor
  {
    var page := After(st, cursor, BACKLOG_PAGE);
    if page == [] {
    } else if |page| < BACKLOG_PAGE {
      ConcatOne(page);
    } else {
      PageMoves(st, cursor);
      FullPage(st, cursor);
      PagesAreTheLog(st, page[|page| - 1].seqNo);
      ConcatFirst(page, Pages(st, page[|page| - 1].seqNo));
    }
  }

  lemma {:induction false} ConcatOne<T>(page: seq<T>)
    ensures Concat([page]) == page
  {
    assert [page][1..] == [];
  }

  lemma {:induction false} ConcatFirst<T>(page: seq<T>, pages: seq<seq<T>>)
    ensures Concat([page] + pages) == page + Concat(pages)
  {
    assert ([page] + pages)[1..] == pages;
  }

  // ----- pages on the wire -----

  lemma {:induction false} PageParts(page: seq<Row>)
    ensures multiset(WiresNews(StandingRows(page))) + multiset(AllNews(Undos(page))) == multiset(RowsNews(page))
  {
    if page != [] {
      PageParts(page[1..]);
      if page[0].removed.None? {
        StandingFirst(page);
      } else {
        UndoFirst(page);
      }
    }
  }

  lemma {:induction false} StandingFirst(page: seq<Row>)
    requires page != [] && page[0].removed.None?
    ensures WiresNews(StandingRows(page)) == [RowNews(page[0])] + WiresNews(StandingRows(page[1..]))
    ensures Undos(page) == Undos(page[1..])
  {
    WiresFirst(Wire(page[0]), StandingRows(page[1..]));
  }

  lemma {:induction false} UndoFirst(page: seq<Row>)
    requires page != [] && page[0].removed.Some?
    ensures AllNews(Undos(page)) == [RowNews(page[0])] + AllNews(Undos(page[1..]))
    ensures StandingRows(page) == StandingRows(page[1..])
  {
    NewsCons(UndoMessage(page[0]), Undos(page[1..]));
  }

  lemma {:induction false} WiresFirst(r: WireRow, rs: seq<WireRow>)
    ensures WiresNews([r] + rs) == [WireNews(r)] + WiresNews(rs)
  {
    assert ([r] + rs)[1..] == rs;
  }

  /** A page's messages say what its rows say, each once. */
  lemma {:induction false} PageNews(page: seq<Row>)
    ensures multiset(AllNews(PageMessages(page))) == multiset(RowsNews(page))
  {
    PageParts(page);
    PageInTwo(page);
  }

  lemma {:induction false} PageInTwo(page: seq<Row>)
    ensures AllNews(PageMessages(page)) == WiresNews(StandingRows(page)) + AllNews(Undos(page))
  {
    if StandingRows(page) != [] {
      NewsCons(CheckIns(StandingRows(page)), Undos(page));
    } else {
      assert PageMessages(page) == Undos(page);
    }
  }

  function PagesMessages(pages: seq<seq<Row>>): seq<seq<Message>> {
    if pages == [] then [] else [PageMessages(pages[0])] + PagesMessages(pages[1..])
  }

  /** The catch-up as it is sent: a hello naming the room, then the pages. */
  ghost function BacklogBundles(st: RoomState, afterSeq: int, epoch: Option<string>): seq<seq<Message>>
    requires WellFormed(st)
  {
    [[Hello(st.epoch, st.top)]] + PagesMessages(Pages(st, Start(st, afterSeq, epoch)))
  }

  /** The messages of the pages from a cursor on. */
  ghost function Unsent(st: RoomState, cursor: int): seq<Message>
    requires WellFormed(st)
  {
    Concat(PagesMessages(Pages(st, cursor)))
  }

  ghost function BacklogOf(st: RoomState, afterSeq: int, epoch: Option<string>): seq<Message>
    requires WellFormed(st)
  {
    [Hello(st.epoch, st.top)] + Unsent(st, Start(st, afterSeq, epoch))
  }

  /** The bundles a phone is sent, end to end, are the catch-up. */
  lemma {:induction false} BundlesAreBacklog(st: RoomState, afterSeq: int, epoch: Option<string>)
    requires WellFormed(st)
    ensures Concat(BacklogBundles(st, afterSeq, epoch)) == BacklogOf(st, afterSeq, epoch)
  {
    ConcatFirst([Hello(st.epoch, st.top)], PagesMessages(Pages(st, Start(st, afterSeq, epoch))));
  }

  lemma {:induction false} PagesNews(pages: seq<seq<Row>>)
    ensures multiset(AllNews(Concat(PagesMessages(pages)))) == multiset(RowsNews(Concat(pages)))
  {
    if pages != [] {
      PagesNews(pages[1..]);
      PageNews(pages[0]);
      ConcatFirst(PageMessages(pages[0]), PagesMessages(pages[1..]));
      NewsAppend(PageMessages(pages[0]), Concat(PagesMessages(pages[1..])));
      RowsNewsAppend(pages[0], Concat(pages[1..]));
    }
  }

  lemma {:induction false} RowsNewsAppend(a: seq<Row>, b: seq<Row>)
    ensures RowsNews(a + b) == RowsNews(a) + RowsNews(b)
  {
    if a == [] {
      assert a + b == b;
    } else {
      assert (a + b)[1..] == a[1..] + b;
      RowsNewsAppend(a[1..], b);
    }
  }

  lemma {:induction false} RowsNewsIndex(rows: seq<Row>)
    ensures |RowsNews(rows)| == |rows| && forall i | 0 <= i < |rows| :: RowsNews(rows)[i] == RowNews(rows[i])
  {
    if rows != [] {
      RowsNewsIndex(rows[1..]);
    }
  }

  /** What a catch-up from `from` has to say: one item for every row changed since. */
  ghost predicate Missed(st: RoomState, from: int, n: News) {
    n.ticketId in st.rows && from < st.rows[n.ticketId].seqNo && n == RowNews(st.rows[n.ticketId])
  }

  /** The catch-up names the room, then says each missed row or undo exactly once, and nothing else. */
  lemma BacklogExact(st: RoomState, afterSeq: int, epoch: Option<string>)
    requires WellFormed(st)
    ensures var out := BacklogOf(st, afterSeq, epoch);
            && out[0] == Hello(st.epoch, st.top)
            && (forall n :: n in AllNews(out) <==> Missed(st, Start(st, afterSeq, epoch), n))
            && (forall n | n in AllNews(out) :: multiset(AllNews(out))[n] == 1)
  {
    var from := Start(st, afterSeq, epoch);
    var pages := Pages(st, from);
    var log := RowsBetween(st.rows, from, st.top);
    PagesAreTheLog(st, from);
    PagesNews(pages);
    NewsCons(Hello(st.epoch, st.top), Concat(PagesMessages(pages)));
    LogNews(st, from);
    SameMembers(AllNews(BacklogOf(st, afterSeq, epoch)), RowsNews(log));
  }

  /**
   * Without naming where it starts: a cursor of this room, no further than its top, is told of each row numbered past
   * it; any other cursor of every row. Each is told once.
   */
  lemma {:induction false} CatchUpIff(st: RoomState, afterSeq: int, epoch: Option<string>, n: News)
    requires WellFormed(st)
    ensures var ns := AllNews(BacklogOf(st, afterSeq, epoch));
            && (n in ns <==>
                  && n.ticketId in st.rows && n == RowNews(st.rows[n.ticketId])
                  && (epoch == Some(st.epoch) && afterSeq <= st.top ==> afterSeq < st.rows[n.ticketId].seqNo))
            && (n in ns ==> multiset(ns)[n] == 1)
  {
    BacklogExact(st, afterSeq, epoch);
    if n.ticketId in st.rows {
      assert RowOk(n.ticketId, st.rows[n.ticketId], st.top);
    }
  }

  lemma {:induction false} LogNews(st: RoomState, from: int)
    requires WellFormed(st)
    ensures var ns := RowsNews(RowsBetween(st.rows, from, st.top));
            && (forall n :: n in ns <==> Missed(st, from, n))
            && (forall n | n in ns :: multiset(ns)[n] == 1)
  {
    var log := RowsBetween(st.rows, from, st.top);
    BetweenIsTheLog(st, from, st.top);
    RowsNewsIndex(log);
    DistinctOnce(RowsNews(log));
    forall n
      ensures n in RowsNews(log) <==> Missed(st, from, n)
    {
      if n in RowsNews(log) {
        var i :| 0 <= i < |log| && RowsNews(log)[i] == n;
        assert log[i] in log;
      }
      if Missed(st, from, n) {
        assert RowOk(n.ticketId, st.rows[n.ticketId], st.top);
        assert st.rows[n.ticketId] in log;
        var i :| 0 <= i < |log| && log[i] == st.rows[n.ticketId];
        assert RowsNews(log)[i] == n;
      }
    }
  }

  /** One page out of a catch-up: its messages, then the catch-up after its last row if it was full. */
  lemma {:induction false} PagesStep(st: RoomState, cursor: int)
    requires WellFormed(st) && After(st, cursor, BACKLOG_PAGE) != []
    ensures var page := After(st, cursor, BACKLOG_PAGE);
            && |page| <= BACKLOG_PAGE
            && cursor < page[|page| - 1].seqNo <= st.top
            && Unsent(st, cursor) ==
               PageMessages(page) + if |page| == BACKLOG_PAGE then Unsent(st, page[|page| - 1].seqNo) else []
  {
    PageMoves(st, cursor);
    var page := After(st, cursor, BACKLOG_PAGE);
    if |page| == BACKLOG_PAGE {
      PagesFirst(page, Pages(st, page[|page| - 1].seqNo));
    } else {
      PagesFirst(page, []);
      assert Pages(st, cursor) == [page] + [];
      assert Concat(PagesMessages([])) == [];
    }
  }

  lemma {:induction false} PagesFirst(page: seq<Row>, rest: seq<seq<Row>>)
    ensures Concat(PagesMessages([page] + rest)) == PageMessages(page) + Concat(PagesMessages(rest))
  {
    assert ([page] + rest)[1..] == rest;
    ConcatFirst(PageMessages(page), PagesMessages(rest));
  }

  /** Every page holds between one row and the page size. */
  lemma {:induction false} PageSizes(st: RoomState, cursor: int)
    requires WellFormed(st)
    ensures forall page | page in Pages(st, cursor) :: 1 <= |page| <= 1_000
    decreases st.top - cursor
  {
    var page := After(st, cursor, BACKLOG_PAGE);
    if |page| == BACKLOG_PAGE {
      PageMoves(st, cursor);
      PageSizes(st, page[|page| - 1].seqNo);
    }
  }
}
