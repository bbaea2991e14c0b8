/**
 * A bundle of rows and then undos, cut after some of its undos: what a listener has heard then, and which of the undos
 * lost the next catch-up says again.
 *
 * Pages and broadcasts are such bundles.
 */
module CutBundles {
  import opened RelayTypes
  import opened RoomRules
  import opened Replica
  import opened Backlog
  import opened PhoneRules

  ghost predicate WiresAscend(rows: seq<WireRow>) {
    forall i, j | 0 <= i < j < |rows| :: rows[i].seqNo < rows[j].seqNo
  }

  ghost predicate UndosAscend(ms: seq<Message>) {
    && (forall i | 0 <= i < |ms| :: ms[i].Undo?)
    && (forall i, j | 0 <= i < j < |ms| :: ms[i].seqNo < ms[j].seqNo)
  }

  lemma {:induction false} StandingFrom(page: seq<Row>)
    ensures forall w | w in StandingRows(page) :: exists r :: r in page && w == Wire(r) && r.removed.None?
  {
    if page != [] {
      StandingFrom(page[1..]);
      assert forall r | r in page[1..] :: r in page;
      assert page[0] in page;
    }
  }

  lemma {:induction false} WirePrepend(w: WireRow, rest: seq<WireRow>)
    requires WiresAscend(rest) && forall x | x in rest :: w.seqNo < x.seqNo
    ensures WiresAscend([w] + rest)
  {
    assert forall i | 0 <= i < |rest| :: rest[i] in rest;
  }

  lemma {:induction false} StandingAscend(page: seq<Row>)
    requires Ascending(page)
    ensures WiresAscend(StandingRows(page))
  {
    if page != [] {
      StandingAscend(page[1..]);
      if page[0].removed.None? {
        StandingFrom(page[1..]);
        assert forall r | r in page[1..] :: page[0].seqNo < r.seqNo;
        WirePrepend(Wire(page[0]), StandingRows(page[1..]));
      } else {
        assert StandingRows(page) == StandingRows(page[1..]);
      }
    }
  }

  lemma {:induction false} UndosFrom(page: seq<Row>)
    ensures forall m | m in Undos(page) :: exists r :: r in page && m == UndoMessage(r) && r.removed.Some?
  {
    if page != [] {
      UndosFrom(page[1..]);
      assert forall r | r in page[1..] :: r in page;
      assert page[0] in page;
    }
  }

  lemma {:induction false} UndoPrepend(m: Message, rest: seq<Message>)
    requires m.Undo? && UndosAscend(rest) && forall x | x in rest :: x.Undo? && m.seqNo < x.seqNo
    ensures UndosAscend([m] + rest)
  {
    assert forall i | 0 <= i < |rest| :: rest[i] in rest;
  }

  lemma {:induction false} UndosDoAscend(page: seq<Row>)
    requires Ascending(page)
    ensures UndosAscend(Undos(page))
  {
    if page != [] {
      UndosDoAscend(page[1..]);
      if page[0].removed.Some? {
        UndosFrom(page[1..]);
        assert forall r | r in page[1..] :: page[0].seqNo < r.seqNo;
        UndoPrepend(UndoMessage(page[0]), Undos(page[1..]));
      } else {
        assert Undos(page) == Undos(page[1..]);
      }
    }
  }

  function UndoNews(m: Message): News
    requires m.Undo?
  {
    News(m.ticketId, Out(m.remover, m.at, m.seqNo))
  }

  lemma {:induction false} UndosNews(ms: seq<Message>)
    requires forall i | 0 <= i < |ms| :: ms[i].Undo?
    ensures |AllNews(ms)| == |ms| && forall i | 0 <= i < |ms| :: AllNews(ms)[i] == UndoNews(ms[i])
  {
    if ms != [] {
      UndosNews(ms[1..]);
    }
  }

  lemma {:induction false} WiresIndex(rows: seq<WireRow>)
    ensures |WiresNews(rows)| == |rows| && forall i | 0 <= i < |rows| :: WiresNews(rows)[i] == WireNews(rows[i])
  {
    if rows != [] {
      WiresIndex(rows[1..]);
    }
  }

  // ----- a bundle cut short -----

  /** A bundle: its rows in one message, then its undos. */
  function Parts(rows: seq<WireRow>, undos: seq<Message>): seq<Message> {
    (if rows == [] then [] else [CheckIns(rows)]) + undos
  }

  /** Each part is in number order, and newer than the cursor. */
  ghost predicate TwoParts(rows: seq<WireRow>, undos: seq<Message>, heard: int) {
    && WiresAscend(rows) && UndosAscend(undos)
    && (forall w | w in rows :: IsUuid(w.ticketId) && heard < w.seqNo)
    && (forall m | m in undos :: m.Undo? && IsUuid(m.ticketId) && heard < m.seqNo)
  }

  lemma {:induction false} PartsNews(rows: seq<WireRow>, undos: seq<Message>)
    ensures AllNews(Parts(rows, undos)) == WiresNews(rows) + AllNews(undos)
  {
    if rows == [] {
      assert Parts(rows, undos) == undos;
    } else {
      NewsCons(CheckIns(rows), undos);
    }
  }

  lemma {:induction false} SomeUndos(rows: seq<WireRow>, undos: seq<Message>, heard: int, k: nat)
    requires TwoParts(rows, undos, heard) && k <= |undos|
    ensures TwoParts(rows, undos[..k], heard) && NoHello(Parts(rows, undos[..k]))
  {
    assert forall m | m in undos[..k] :: m in undos;
  }

  /** The numbers a bundle carries: its rows' up to the last one's, and its undos' up to the last one's. */
  ghost predicate UpToLast(n: News, rows: seq<WireRow>, undos: seq<Message>)
    requires UndosAscend(undos)
  {
    (rows != [] && n.fact.seqNo <= rows[|rows| - 1].seqNo)
    || (undos != [] && n.fact.seqNo <= undos[|undos| - 1].seqNo)
  }

  lemma {:induction false} CutNews(rows: seq<WireRow>, undos: seq<Message>, heard: int)
    requires TwoParts(rows, undos, heard)
    ensures var ns := WiresNews(rows) + AllNews(undos);
            && AllOurs(ns)
            && (forall n | n in ns :: UpToLast(n, rows, undos))
            && (rows != [] ==> WireNews(rows[|rows| - 1]) in ns)
  {
    WiresIndex(rows);
    UndosNews(undos);
    if rows != [] {
      assert WiresNews(rows)[|rows| - 1] in WiresNews(rows);
    }
    forall n | n in WiresNews(rows)
      ensures IsUuid(n.ticketId) && rows != [] && n.fact.seqNo <= rows[|rows| - 1].seqNo
    {
      var i :| 0 <= i < |rows| && WiresNews(rows)[i] == n;
      assert rows[i] in rows;
    }
    forall n | n in AllNews(undos)
      ensures IsUuid(n.ticketId) && undos != [] && n.fact.seqNo <= undos[|undos| - 1].seqNo
    {
      var i :| 0 <= i < |undos| && AllNews(undos)[i] == n;
      assert undos[i] in undos;
    }
  }

  lemma CutInTwo(rows: seq<WireRow>, undos: seq<Message>, k: nat)
    requires k <= |undos|
    ensures Parts(rows, undos) == Parts(rows, undos[..k]) + undos[k..]
  {
    assert undos == undos[..k] + undos[k..];
  }

  /** The cursor after a bundle's rows and the first `k` of its undos. */
  function HeardOfCut(v: View, rows: seq<WireRow>, undos: seq<Message>, k: nat): int
    requires k <= |undos|
  {
    HearAll(v, Parts(rows, undos[..k])).heard
  }

  lemma {:induction false} CutHeard(v: View, rows: seq<WireRow>, undos: seq<Message>, k: nat)
    requires TwoParts(rows, undos, v.heard) && k <= |undos|
    ensures var heard := HeardOfCut(v, rows, undos, k);
            && (rows != [] ==> rows[|rows| - 1].seqNo <= heard)
            && (heard == v.heard || (rows != [] && heard <= rows[|rows| - 1].seqNo)
                || (k > 0 && heard <= undos[k - 1].seqNo))
  {
    var some := undos[..k];
    SomeUndos(rows, undos, v.heard, k);
    HearAllIsNews(v, Parts(rows, some));
    PartsNews(rows, some);
    CutNews(rows, some, v.heard);
    HeardNews(v, WiresNews(rows) + AllNews(some));
  }

  /** What the room still holds to be the ticket's state. */
  ghost predicate Latest(st: RoomState, n: News) {
    n.ticketId in st.rows && n == RowNews(st.rows[n.ticketId])
  }

  /** Of what did not arrive, all that still holds will be said again by the catch-up from the cursor reached. */
  ghost predicate SaidAgain(st: RoomState, cursor: int, lost: seq<News>) {
    forall n | n in lost && Latest(st, n) :: Missed(st, cursor, n)
  }

  /** All that was lost and still holds is newer than the last row that arrived. */
  ghost predicate LostAreNewer(st: RoomState, rows: seq<WireRow>, lost: seq<News>) {
    rows == [] || forall n | n in lost && Latest(st, n) :: rows[|rows| - 1].seqNo < n.fact.seqNo
  }

  /** What is lost is newer than the undos that arrived. */
  lemma {:induction false} LostBehind(rows: seq<WireRow>, undos: seq<Message>, heard: int, k: nat, n: News)
    requires TwoParts(rows, undos, heard) && k <= |undos| && n in AllNews(undos[k..])
    ensures heard < n.fact.seqNo && (k > 0 ==> undos[k - 1].seqNo < n.fact.seqNo)
  {
    UndosNews(undos[k..]);
    var i :| 0 <= i < |undos[k..]| && AllNews(undos[k..])[i] == n;
    assert undos[k + i] in undos && n == UndoNews(undos[k + i]);
  }

  lemma {:induction false} NewerSaidAgain(st: RoomState, v: View, rows: seq<WireRow>, undos: seq<Message>, k: nat,
                                          n: News)
    requires TwoParts(rows, undos, v.heard) && k <= |undos| && n in AllNews(undos[k..]) && Latest(st, n)
    ensures Missed(st, HeardOfCut(v, rows, undos, k), n) <==>
            rows == [] || rows[|rows| - 1].seqNo < n.fact.seqNo
  {
    CutHeard(v, rows, undos, k);
    LostBehind(rows, undos, v.heard, k, n);
    assert RowNews(st.rows[n.ticketId]).fact.seqNo == st.rows[n.ticketId].seqNo;
  }

  /** After the cut: what was lost is repeated exactly when it is newer than the last row that arrived. */
  lemma {:induction false} CutLosesIff(st: RoomState, v: View, rows: seq<WireRow>, undos: seq<Message>, k: nat)
    requires TwoParts(rows, undos, v.heard) && k <= |undos|
    ensures var lost := AllNews(undos[k..]);
            SaidAgain(st, HeardOfCut(v, rows, undos, k), lost) <==> LostAreNewer(st, rows, lost)
  {
    var lost := AllNews(undos[k..]);
    forall n | n in lost && Latest(st, n)
      ensures Missed(st, HeardOfCut(v, rows, undos, k), n) <==>
              rows == [] || rows[|rows| - 1].seqNo < n.fact.seqNo
    {
      NewerSaidAgain(st, v, rows, undos, k, n);
    }
  }
}
