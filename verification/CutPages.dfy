/**
 * Why a bundle must arrive whole: exactly when a page or a broadcast cut short loses something for good.
 *
 * A page and a broadcast are each a bundle of rows and then undos.
 */
module CutPages {
  import opened Common
  import opened RelayTypes
  import opened RoomRules
  import opened Replica
  import opened RoomProofs
  import opened RoomTheorems
  import opened Backlog
  import opened PhoneRules
  import opened CatchingUp
  import Convergence
  import RunSteps
  import Marks
  import Retry
  import opened CutBundles

  // ----- a page -----

  lemma {:induction false} PageOfRoom(st: RoomState, cursor: int)
    requires WellFormed(st)
    ensures var page := After(st, cursor, BACKLOG_PAGE);
            && Ascending(page)
            && forall r | r in page ::
                 r.ticketId in st.rows && st.rows[r.ticketId] == r && IsUuid(r.ticketId) && cursor < r.seqNo
  {
    var page := After(st, cursor, BACKLOG_PAGE);
    if page != [] {
      FirstPage(st, cursor);
      assert forall r | r in page :: RowOk(r.ticketId, r, st.top);
    }
  }

  lemma {:induction false} PageTwoParts(st: RoomState, cursor: int)
    requires WellFormed(st)
    ensures var page := After(st, cursor, BACKLOG_PAGE);
            && TwoParts(StandingRows(page), Undos(page), cursor)
            && PageMessages(page) == Parts(StandingRows(page), Undos(page))
  {
    var page := After(st, cursor, BACKLOG_PAGE);
    PageOfRoom(st, cursor);
    StandingAscend(page);
    StandingFrom(page);
    UndosDoAscend(page);
    UndosFrom(page);
  }

  lemma {:induction false} PageUndosLatest(st: RoomState, cursor: int)
    requires WellFormed(st)
    ensures forall n | n in AllNews(Undos(After(st, cursor, BACKLOG_PAGE))) :: Latest(st, n)
  {
    var page := After(st, cursor, BACKLOG_PAGE);
    PageOfRoom(st, cursor);
    UndosDoAscend(page);
    UndosFrom(page);
    UndosNews(Undos(page));
    forall n | n in AllNews(Undos(page))
      ensures Latest(st, n)
    {
      var i :| 0 <= i < |Undos(page)| && AllNews(Undos(page))[i] == n;
      assert Undos(page)[i] in Undos(page);
    }
  }

  lemma {:induction false} FewerLatest(st: RoomState, undos: seq<Message>, k: nat)
    requires UndosAscend(undos) && k < |undos| && forall n | n in AllNews(undos) :: Latest(st, n)
    ensures UndoNews(undos[k]) in AllNews(undos[k..])
    ensures forall n | n in AllNews(undos[k..]) :: Latest(st, n) && undos[k].seqNo <= n.fact.seqNo
  {
    UndosNews(undos);
    UndosNews(undos[k..]);
    assert AllNews(undos[k..])[0] == UndoNews(undos[k]);
    forall n | n in AllNews(undos[k..])
      ensures n in AllNews(undos) && undos[k].seqNo <= n.fact.seqNo
    {
      var i :| 0 <= i < |undos[k..]| && AllNews(undos[k..])[i] == n;
      assert AllNews(undos)[k + i] == n;
    }
  }

  lemma {:induction false} FirstNewer(st: RoomState, rows: seq<WireRow>, undos: seq<Message>, k: nat)
    requires UndosAscend(undos) && k < |undos|
    requires UndoNews(undos[k]) in AllNews(undos[k..])
    requires forall n | n in AllNews(undos[k..]) :: Latest(st, n) && undos[k].seqNo <= n.fact.seqNo
    ensures LostAreNewer(st, rows, AllNews(undos[k..])) <==> rows == [] || rows[|rows| - 1].seqNo < undos[k].seqNo
  {
    assert UndoNews(undos[k]).fact.seqNo == undos[k].seqNo;
  }

  /**
   * A page whose rows arrive but whose undos are cut after the first `k`: the next catch-up repeats all that was lost
   * exactly when the first undo lost is newer than the page's last standing row, or the page has none.
   */
  lemma {:induction false} CutPageLosesIff(st: RoomState, v: View, k: nat)
    requires WellFormed(st) && k < |Undos(After(st, v.heard, BACKLOG_PAGE))|
    ensures var page := After(st, v.heard, BACKLOG_PAGE);
            var rows, undos := StandingRows(page), Undos(page);
            && undos[k].Undo?
            && PageMessages(page) == Parts(rows, undos[..k]) + undos[k..]
            && (forall n | n in AllNews(undos[k..]) :: Latest(st, n))
            && (SaidAgain(st, HeardOfCut(v, rows, undos, k), AllNews(undos[k..])) <==>
                  rows == [] || rows[|rows| - 1].seqNo < undos[k].seqNo)
  {
    var page := After(st, v.heard, BACKLOG_PAGE);
    var rows, undos := StandingRows(page), Undos(page);
    PageTwoParts(st, v.heard);
    PageUndosLatest(st, v.heard);
    FewerLatest(st, undos, k);
    FirstNewer(st, rows, undos, k);
    CutLosesIff(st, v, rows, undos, k);
    CutInTwo(rows, undos, k);
  }

  // ----- a broadcast -----

  lemma {:induction false} AscendingParts(rows: seq<WireRow>, undos: seq<Message>)
    requires NewsAscend(WiresNews(rows)) && NewsAscend(AllNews(undos)) && forall m | m in undos :: m.Undo?
    ensures WiresAscend(rows) && UndosAscend(undos)
  {
    WiresIndex(rows);
    assert forall i | 0 <= i < |undos| :: undos[i] in undos;
    UndosNews(undos);
    forall i, j | 0 <= i < j < |rows|
      ensures rows[i].seqNo < rows[j].seqNo
    {
      assert WiresNews(rows)[i].fact.seqNo < WiresNews(rows)[j].fact.seqNo;
    }
    forall i, j | 0 <= i < j < |undos|
      ensures undos[i].seqNo < undos[j].seqNo
    {
      assert AllNews(undos)[i].fact.seqNo < AllNews(undos)[j].fact.seqNo;
    }
  }

  lemma {:induction false} NewerParts(rows: seq<WireRow>, undos: seq<Message>, heard: int)
    requires WiresAscend(rows) && UndosAscend(undos)
    requires forall n | n in AllNews(Parts(rows, undos)) :: IsUuid(n.ticketId) && heard < n.fact.seqNo
    ensures TwoParts(rows, undos, heard)
  {
    PartsNews(rows, undos);
    WiresIndex(rows);
    UndosNews(undos);
    forall w | w in rows
      ensures IsUuid(w.ticketId) && heard < w.seqNo
    {
      var i :| 0 <= i < |rows| && rows[i] == w;
      assert WiresNews(rows)[i] in AllNews(Parts(rows, undos));
    }
    forall m | m in undos
      ensures m.Undo? && IsUuid(m.ticketId) && heard < m.seqNo
    {
      var i :| 0 <= i < |undos| && undos[i] == m;
      assert AllNews(undos)[i] in AllNews(Parts(rows, undos));
    }
  }

  lemma {:induction false} BroadcastTwoParts(st: RoomState, who: Sender, raw: Raw, now: int)
    requires Sane(st)
    ensures var ms := Broadcast(FromPhone(st, who, raw, now).action);
            TwoParts(RowsIn(ms), NotRows(ms), st.top) && ms == Parts(RowsIn(ms), NotRows(ms))
  {
    var o := FromPhone(st, who, raw, now);
    var ms := Broadcast(o.action);
    var told := PhoneTold(st, who, raw, now);
    FromPhoneAnnouncedOnce(st, who, raw, now);
    Convergence.NewsIsSound(st, o.room, ms);
    RunSteps.PhoneNoHello(st, who, raw, now);
    PartsOfMerged(told);
    PartsAscend(told);
    NoRowsLeft(ms);
    AscendingParts(RowsIn(ms), NotRows(ms));
    NewerParts(RowsIn(ms), NotRows(ms), st.top);
  }

  lemma LowerCursor(rows: seq<WireRow>, undos: seq<Message>, top: int, heard: int)
    requires TwoParts(rows, undos, top) && heard <= top
    ensures TwoParts(rows, undos, heard)
  {
  }

  /**
   * A phone's message, as the others hear it, likewise: cut after the first `k` undos, a listener that was not ahead of
   * the room is told the rest again exactly when each lost undo that still holds is newer than the last row.
   */
  lemma {:induction false} CutBroadcastLosesIff(st: RoomState, who: Sender, raw: Raw, now: int, v: View, k: nat)
    requires Sane(st) && v.heard <= st.top
    requires k <= |NotRows(Broadcast(FromPhone(st, who, raw, now).action))|
    ensures var o := FromPhone(st, who, raw, now);
            var rows, undos := RowsIn(Broadcast(o.action)), NotRows(Broadcast(o.action));
            && Broadcast(o.action) == Parts(rows, undos[..k]) + undos[k..]
            && (SaidAgain(o.room, HeardOfCut(v, rows, undos, k), AllNews(undos[k..])) <==>
                  LostAreNewer(o.room, rows, AllNews(undos[k..])))
  {
    var o := FromPhone(st, who, raw, now);
    var rows, undos := RowsIn(Broadcast(o.action)), NotRows(Broadcast(o.action));
    BroadcastTwoParts(st, who, raw, now);
    LowerCursor(rows, undos, st.top, v.heard);
    CutLosesIff(o.room, v, rows, undos, k);
    CutInTwo(rows, undos, k);
  }

  // ----- a page that loses something -----

  /** A room where one ticket was taken back and then another admitted. */
  function TwoRows(): RoomState {
    RoomState(
      map[Retry.Ticket(1) := Row(Retry.Ticket(1), 0, None, None, true, 1, Some(ByServer)),
          Retry.Ticket(2) := Row(Retry.Ticket(2), 0, None, None, true, 2, None)],
      2, "e", {})
  }

  lemma {:induction false} TwoRowsPage()
    ensures var st := TwoRows();
            && WellFormed(st)
            && After(st, 0, BACKLOG_PAGE) == [st.rows[Retry.Ticket(1)], st.rows[Retry.Ticket(2)]]
  {
    var st := TwoRows();
    if Retry.Ticket(1) == Retry.Ticket(2) {
      Retry.TicketsDiffer(1, 2);
    }
    Retry.TicketDigits(1);
    Retry.TicketDigits(2);
    var r1, r2 := st.rows[Retry.Ticket(1)], st.rows[Retry.Ticket(2)];
    assert InRoom(st.rows, r1) && InRoom(st.rows, r2);
    SameNumberSameRow(st, r1);
    SameNumberSameRow(st, r2);
    assert HasSeq(st.rows, 1) && HasSeq(st.rows, 2);
    SeqRowInRoom(st, 1);
    SeqRowInRoom(st, 2);
    assert RowsBetween(st.rows, 2, 2) == [];
    assert RowsBetween(st.rows, 1, 2) == [r2];
  }

  /** Cut before its undo, this page loses it: no later catch-up from the cursor reached says it. */
  lemma {:induction false} CutPageLoses()
    ensures var st, v := TwoRows(), View("e", 0, map[]);
            var page := After(st, 0, BACKLOG_PAGE);
            !SaidAgain(st, HeardOfCut(v, StandingRows(page), Undos(page), 0), AllNews(Undos(page)[0..]))
  {
    var st, v := TwoRows(), View("e", 0, map[]);
    TwoRowsPage();
    var r1, r2 := st.rows[Retry.Ticket(1)], st.rows[Retry.Ticket(2)];
    assert [r1, r2][1..] == [r2] && [r2][1..] == [];
    assert StandingRows([r2]) == [Wire(r2)] && Undos([r2]) == [];
    assert StandingRows([r1, r2]) == [Wire(r2)] && Undos([r1, r2]) == [UndoMessage(r1)];
    CutPageLosesIff(st, v, 0);
  }

  // ----- a broadcast that loses something -----

  /** One ticket taken back and another claimed. */
  function UndoThenClaim(length: nat): Raw {
    Raw(length, PhoneObject(Str("claims"), Other, Other,
                            Some([Retry.Renewal(Retry.Ticket(1), 0)[0], Retry.Renewal(Retry.Ticket(2), 0)[1]])))
  }

  lemma {:induction false} OneClaimRoom(who: Sender)
    ensures var st, row := Retry.ClaimedRoom(who, 1), Retry.ClaimRow(Retry.Ticket(1), 0, who, 1);
            && Sane(st) && st.top == 1 && st.rows == map[Retry.Ticket(1) := row]
            && Retry.Ticket(2) !in st.rows && Retry.BelowCaps(st, who.passId)
            && IsUuid(Retry.Ticket(1)) && IsUuid(Retry.Ticket(2))
  {
    Retry.ClaimedRoomCount(who, 1);
    Retry.ClaimedRoomLacks(who, 1, 2);
    Retry.TicketDigits(1);
    Retry.TicketDigits(2);
    assert Retry.ClaimedRoom(who, 0).rows == map[];
  }

  lemma {:induction false} ClaimedNew(st: RoomState, who: Sender, u: string)
    requires IsUuid(u) && u !in st.rows && Retry.BelowCaps(st, who.passId)
    ensures var claim := Retry.ClaimRow(u, 0, who, st.top + 1);
            OneItem(st, who, Retry.Renewal(u, 0)[1], 0) ==
            Some(Outcome(Put(st, claim), Ok([CheckIns([Wire(claim)])], true, None, None, None)))
  {
    assert OneItem(st, who, Retry.Renewal(u, 0)[1], 0) == Claim(st, who, Str(u), Num(0), 0);
  }

  predicate Does(st: RoomState, who: Sender, item: Item, now: int, next: RoomState, m: Message) {
    var step := OneItem(st, who, item, now);
    step.Some? && step.value.action.Ok? && step.value.room == next && step.value.action.broadcast == [m]
  }

  lemma {:induction false} TwoDone(st: RoomState, mid: RoomState, end: RoomState, who: Sender, a: Item, b: Item,
                                   undo: Message, claim: Message, length: nat, now: int)
    requires Does(st, who, a, now, mid, undo) && Does(mid, who, b, now, end, claim)
    requires undo.Undo? && claim.CheckIns? && claim.rows != [] && length <= MAX_BATCH_BYTES
    ensures var o := FromPhone(st, who, Raw(length, PhoneObject(Str("claims"), Other, Other, Some([a, b]))), now);
            o.room == end && Broadcast(o.action) == [claim, undo]
  {
    Retry.BatchOfTwo(Progress(st, [], None), who, a, b, now);
    Marks.MergedTwo(undo, claim);
    assert [] + [undo] == [undo] && [undo] + [claim] == [undo, claim];
  }

  lemma {:induction false} UndoThenClaimTold(who: Sender, length: nat)
    requires length <= MAX_BATCH_BYTES
    ensures var st := Retry.ClaimedRoom(who, 1);
            var t, u := Retry.Ticket(1), Retry.Ticket(2);
            var o := FromPhone(st, who, UndoThenClaim(length), 0);
            && t in st.rows && t != u
            && var tomb, claim := Tombstone(st, st.rows[t]), Retry.ClaimRow(u, 0, who, 3);
            && o.room.rows == st.rows[t := tomb][u := claim]
            && Broadcast(o.action) == [CheckIns([Wire(claim)]), UndoMessage(tomb)]
  {
    OneClaimRoom(who);
    var st, t, u := Retry.ClaimedRoom(who, 1), Retry.Ticket(1), Retry.Ticket(2);
    var tomb, claim := Tombstone(st, st.rows[t]), Retry.ClaimRow(u, 0, who, 3);
    var mid := Put(st, tomb);
    Retry.UndoFirst(st, who, t, 0, 0);
    Marks.UndoTold(st, who, t, 0, 0);
    Retry.TombstoneKeepsCounts(st, st.rows[t]);
    ClaimedNew(mid, who, u);
    TwoDone(st, mid, Put(mid, claim), who, Retry.Renewal(t, 0)[0], Retry.Renewal(u, 0)[1], UndoMessage(tomb),
            CheckIns([Wire(claim)]), length, 0);
  }

  /** Cut before its undo, this broadcast loses it for a listener who was up to date. */
  lemma {:induction false} CutBroadcastLoses(who: Sender, length: nat)
    requires length <= MAX_BATCH_BYTES
    ensures var st := Retry.ClaimedRoom(who, 1);
            var o := FromPhone(st, who, UndoThenClaim(length), 0);
            var rows, undos := RowsIn(Broadcast(o.action)), NotRows(Broadcast(o.action));
            && undos != []
            && !SaidAgain(o.room, HeardOfCut(View("", 1, map[]), rows, undos, 0), AllNews(undos[0..]))
  {
    OneClaimRoom(who);
    UndoThenClaimTold(who, length);
    var st, t := Retry.ClaimedRoom(who, 1), Retry.Ticket(1);
    var o := FromPhone(st, who, UndoThenClaim(length), 0);
    var tomb, claim := Tombstone(st, st.rows[t]), Retry.ClaimRow(Retry.Ticket(2), 0, who, 3);
    var undo := UndoMessage(tomb);
    PartsFirst(CheckIns([Wire(claim)]), [undo]);
    PartsFirst(undo, []);
    assert [CheckIns([Wire(claim)])] + [undo] == Broadcast(o.action) && [undo] + [] == [undo];
    var rows, undos := RowsIn(Broadcast(o.action)), NotRows(Broadcast(o.action));
    assert rows == [Wire(claim)] + RowsIn([undo]) && undos == [undo] && RowsIn([undo]) == [];
    NewsOfTombstone(tomb);
    assert undos[0..] == [undo] && RowNews(tomb) in AllNews(undos[0..]) && Latest(o.room, RowNews(tomb));
    assert !LostAreNewer(o.room, rows, AllNews(undos[0..]));
    CutBroadcastLosesIff(st, who, UndoThenClaim(length), 0, View("", 1, map[]), 0);
  }
}
