/**
 * What every room operation keeps, and that no change goes unannounced: each operation of RoomRules, step by step.
 */
module RoomProofs {
  import opened Common
  import opened RelayTypes
  import opened RoomRules
  import opened Replica

  // ----- well-formed rooms -----

  predicate RowOk(t: string, row: Row, top: int) {
    && row.ticketId == t
    && IsUuid(t)
    && 1 <= row.seqNo <= top
    && (row.confirmed <==> row.passId.None?)
    && (row.removed == Some(ByGate) ==> !row.confirmed)
    && (row.removed == Some(ByServer) ==> row.confirmed)
    && (!row.confirmed ==> row.gate.Some?)
  }

  ghost predicate WellFormed(st: RoomState) {
    && 0 <= st.top
    && (forall t | t in st.rows :: RowOk(t, st.rows[t], st.top))
    && (forall t, u | t in st.rows && u in st.rows && t != u :: st.rows[t].seqNo != st.rows[u].seqNo)
  }

  predicate Keyed(rows: map<string, Row>) {
    forall u | u in rows :: rows[u].ticketId == u
  }

  /** Tickets whose row is still some pass's own. */
  function PassOwned(rows: map<string, Row>): set<string> {
    set t | t in rows && rows[t].passId.Some?
  }

  ghost predicate WithinCaps(st: RoomState) {
    && (forall p :: |OwnedBy(st.rows, p)| <= PASS_CLAIM_CAP)
    && |PassOwned(st.rows)| <= ROOM_CAP
  }

  ghost predicate Sane(st: RoomState) {
    WellFormed(st) && WithinCaps(st)
  }

  lemma NewRoomSane(epoch: string, revoked: set<string>)
    ensures Sane(RoomState(map[], 0, epoch, revoked))
  {
    var st := RoomState(map[], 0, epoch, revoked);
    forall p
      ensures |OwnedBy(st.rows, p)| <= PASS_CLAIM_CAP
    {
      assert OwnedBy(st.rows, p) == {};
    }
    assert PassOwned(st.rows) == {};
  }

  // ----- how a room changes -----

  /** Rows are never dropped, and a changed row has a number above the old top. */
  ghost predicate Grew(a: RoomState, b: RoomState) {
    && b.epoch == a.epoch
    && a.top <= b.top
    && (forall t | t in a.rows :: t in b.rows)
    && (forall t | t in b.rows :: (t in a.rows && b.rows[t] == a.rows[t]) || a.top < b.rows[t].seqNo)
  }

  /** The news, one item per new number and in number order, turns knowledge of room a into knowledge of room b. */
  ghost predicate Announced(a: RoomState, b: RoomState, ns: seq<News>) {
    && Grew(a, b)
    && |ns| == b.top - a.top
    && (forall i | 0 <= i < |ns| :: ns[i].fact.seqNo == a.top + 1 + i)
    && LearnAll(Snapshot(a), ns) == Snapshot(b)
  }

  /** What the phones of one pass can do to a room: make claims and take back the pass's own open claims. */
  ghost predicate PhoneStep(a: RoomState, b: RoomState, passId: string) {
    && b.revoked == a.revoked
    && (forall t | t in b.rows ::
          (t in a.rows && b.rows[t] == a.rows[t]) ||
          (&& b.rows[t].passId == Some(passId)
           && (Standing(a.rows, t) ==> OpenClaim(a.rows[t], passId))))
  }

  lemma AnnouncedNothing(st: RoomState)
    ensures Announced(st, st, [])
  {
  }

  lemma AnnouncedPut(st: RoomState, row: Row)
    requires WellFormed(st) && row.seqNo == st.top + 1
    ensures Announced(st, Put(st, row), [RowNews(row)])
  {
    var b := Put(st, row);
    assert [RowNews(row)][1..] == [];
    assert LearnAll(Snapshot(st), [RowNews(row)]) == Learn(Snapshot(st), RowNews(row));
    assert Snapshot(b) == Snapshot(st)[row.ticketId := RowNews(row).fact];
  }

  lemma AnnouncedThen(a: RoomState, b: RoomState, c: RoomState, ns: seq<News>, ms: seq<News>)
    requires Announced(a, b, ns) && Announced(b, c, ms)
    ensures Announced(a, c, ns + ms)
  {
    LearnAppend(Snapshot(a), ns, ms);
  }

  lemma PutSane(st: RoomState, row: Row)
    requires Sane(st)
    requires row.seqNo == st.top + 1 && RowOk(row.ticketId, row, row.seqNo)
    requires row.passId.Some? ==>
               (row.ticketId in st.rows && st.rows[row.ticketId].passId == row.passId) ||
               (|st.rows| < ROOM_CAP && |OwnedBy(st.rows, row.passId.value)| < PASS_CLAIM_CAP)
    ensures Sane(Put(st, row))
  {
    var b := Put(st, row);
    forall p
      ensures |OwnedBy(b.rows, p)| <= PASS_CLAIM_CAP
    {
      if row.passId == Some(p) && !(row.ticketId in st.rows && st.rows[row.ticketId].passId == row.passId) {
        SubsetCard(OwnedBy(b.rows, p), OwnedBy(st.rows, p) + {row.ticketId});
      } else {
        SubsetCard(OwnedBy(b.rows, p), OwnedBy(st.rows, p));
      }
    }
    if row.passId.Some? && !(row.ticketId in st.rows && st.rows[row.ticketId].passId == row.passId) {
      SubsetCard(PassOwned(st.rows), st.rows.Keys);
      SubsetCard(PassOwned(b.rows), PassOwned(st.rows) + {row.ticketId});
    } else {
      SubsetCard(PassOwned(b.rows), PassOwned(st.rows));
    }
  }

  // ----- a phone's messages -----

  /** Everything one phone operation guarantees, with its (unmerged) announcements. */
  ghost predicate PhoneGood(a: RoomState, b: RoomState, ms: seq<Message>, passId: string) {
    Sane(b) && Announced(a, b, AllNews(ms)) && PhoneStep(a, b, passId)
  }

  lemma NothingGood(st: RoomState, passId: string)
    requires Sane(st)
    ensures PhoneGood(st, st, [], passId)
  {
    AnnouncedNothing(st);
  }

  /** One row written with the next number, and announced. */
  lemma OnePutGood(st: RoomState, row: Row, passId: string)
    requires Sane(st)
    requires row.seqNo == st.top + 1 && RowOk(row.ticketId, row, row.seqNo) && row.passId == Some(passId)
    requires Standing(st.rows, row.ticketId) ==> OpenClaim(st.rows[row.ticketId], passId)
    requires Standing(st.rows, row.ticketId) || (|st.rows| < ROOM_CAP && |OwnedBy(st.rows, passId)| < PASS_CLAIM_CAP)
    ensures row.removed.None? ==> PhoneGood(st, Put(st, row), [CheckIns([Wire(row)])], passId)
    ensures row.removed.Some? ==> PhoneGood(st, Put(st, row), [UndoMessage(row)], passId)
  {
    if row.removed.None? { NewsOfStanding(row); } else { NewsOfTombstone(row); }
    AnnouncedPut(st, row);
    PutSane(st, row);
    assert PhoneStep(st, Put(st, row), passId);
  }

  lemma ClaimGood(st: RoomState, who: Sender, ticketId: Value, at: Value, now: int)
    requires Sane(st)
    ensures var o := Claim(st, who, ticketId, at, now);
            o.Some? ==> o.value.action.Ok? && PhoneGood(st, o.value.room, o.value.action.broadcast, who.passId)
  {
    var o := Claim(st, who, ticketId, at, now);
    if o.Some? && o.value.action.broadcast == [] {
      NothingGood(st, who.passId);
      assert o.value.room == st;
    } else if o.Some? {
      var row := Row(ticketId.s, at.n, Some(who.gate), Some(who.passId), false, st.top + 1, None);
      OnePutGood(st, row, who.passId);
      assert o.value.room == Put(st, row) && o.value.action.broadcast == [CheckIns([Wire(row)])];
    }
  }

  lemma UnclaimGood(st: RoomState, who: Sender, ticketId: Value)
    requires Sane(st)
    ensures var o := Unclaim(st, who, ticketId);
            o.Some? ==> o.value.action.Ok? && PhoneGood(st, o.value.room, o.value.action.broadcast, who.passId)
  {
    var o := Unclaim(st, who, ticketId);
    if o.Some? && o.value.action.broadcast == [] {
      NothingGood(st, who.passId);
      assert o.value.room == st;
    } else if o.Some? {
      OnePutGood(st, Tombstone(st, st.rows[ticketId.s]), who.passId);
    }
  }

  lemma PhoneThen(a: RoomState, b: RoomState, c: RoomState, ms: seq<Message>, ns: seq<Message>, passId: string)
    requires PhoneGood(a, b, ms, passId) && PhoneGood(b, c, ns, passId)
    ensures PhoneGood(a, c, ms + ns, passId)
  {
    NewsAppend(ms, ns);
    AnnouncedThen(a, b, c, AllNews(ms), AllNews(ns));
  }

  lemma ItemGood(st: RoomState, who: Sender, item: Item, now: int)
    requires Sane(st)
    ensures var o := OneItem(st, who, item, now);
            o.Some? ==> o.value.action.Ok? && PhoneGood(st, o.value.room, o.value.action.broadcast, who.passId)
  {
    if item.Item? {
      if item.t == Str("in") {
        ClaimGood(st, who, item.ticketId, item.at, now);
      } else {
        UnclaimGood(st, who, item.ticketId);
      }
    }
  }

  lemma {:induction false} BatchGood(a: RoomState, done: Progress, who: Sender, items: seq<Item>, now: int)
    requires PhoneGood(a, done.room, done.broadcast, who.passId)
    ensures PhoneGood(a, Batch(done, who, items, now).room, Batch(done, who, items, now).broadcast, who.passId)
    decreases items
  {
    if items != [] {
      var step := OneItem(done.room, who, items[0], now);
      ItemGood(done.room, who, items[0], now);
      if step.Some? {
        PhoneThen(a, done.room, step.value.room, done.broadcast, step.value.action.broadcast, who.passId);
      }
      BatchGood(a, Advance(done, step), who, items[1..], now);
    }
  }

  // ----- the server's announcements -----

  /** No pass gains an open claim: the ones there are were there before, unchanged. */
  ghost predicate NoNewClaims(a: RoomState, b: RoomState) {
    forall t, p | t in b.rows && OpenClaim(b.rows[t], p) :: t in a.rows && a.rows[t] == b.rows[t]
  }

  ghost predicate ServerGood(a: RoomState, b: RoomState, ms: seq<Message>) {
    Sane(b) && Announced(a, b, AllNews(ms)) && NoNewClaims(a, b)
  }

  /** One confirmed row written with the next number, and announced. */
  lemma ServerPutGood(st: RoomState, row: Row)
    requires Sane(st)
    requires row.seqNo == st.top + 1 && RowOk(row.ticketId, row, row.seqNo) && row.confirmed
    ensures row.removed.None? ==> ServerGood(st, Put(st, row), [CheckIns([Wire(row)])])
    ensures row.removed.Some? ==> ServerGood(st, Put(st, row), [UndoMessage(row)])
  {
    if row.removed.None? { NewsOfStanding(row); } else { NewsOfTombstone(row); }
    AnnouncedPut(st, row);
    PutSane(st, row);
    assert NoNewClaims(st, Put(st, row));
  }

  lemma ServerInGood(st: RoomState, id: string, at: int, gate: Value)
    requires Sane(st) && IsUuid(id)
    ensures var o := ServerIn(st, id, at, gate);
            o.action.Ok? && o.room.revoked == st.revoked && ServerGood(st, o.room, o.action.broadcast)
  {
    var o := ServerIn(st, id, at, gate);
    if o.action.broadcast == [] {
      assert o.room == st;
    } else {
      ServerPutGood(st, o.room.rows[id]);
      assert o.room == Put(st, o.room.rows[id]);
    }
  }

  lemma ServerUndoGood(st: RoomState, id: string, at: int)
    requires Sane(st) && IsUuid(id)
    ensures var o := ServerUndo(st, id, at);
            o.action.Ok? && o.room.revoked == st.revoked && ServerGood(st, o.room, o.action.broadcast)
  {
    var o := ServerUndo(st, id, at);
    if o.action.broadcast == [] {
      assert o.room == st;
    } else {
      ServerPutGood(st, o.room.rows[id]);
      assert o.room == Put(st, o.room.rows[id]);
    }
  }

  lemma ServerThen(a: RoomState, b: RoomState, c: RoomState, ms: seq<Message>, ns: seq<Message>)
    requires ServerGood(a, b, ms) && ServerGood(b, c, ns)
    ensures ServerGood(a, c, ms + ns)
  {
    NewsAppend(ms, ns);
    AnnouncedThen(a, b, c, AllNews(ms), AllNews(ns));
  }

  lemma TombstoneGood(st: RoomState, claim: Row, passId: string)
    requires Sane(st) && claim.ticketId in st.rows && st.rows[claim.ticketId] == claim && OpenClaim(claim, passId)
    ensures ServerGood(st, Put(st, Tombstone(st, claim)), [UndoMessage(Tombstone(st, claim))])
  {
    OnePutGood(st, Tombstone(st, claim), passId);
    assert NoNewClaims(st, Put(st, Tombstone(st, claim)));
  }

  lemma {:induction false} TakeBackGood(a: RoomState, done: Progress, passId: string, order: seq<Row>)
    requires ServerGood(a, done.room, done.broadcast) && SomeClaims(done.room.rows, passId, order)
    ensures ServerGood(a, TakeBack(done, order).room, TakeBack(done, order).broadcast)
    decreases order
  {
    if order != [] {
      var tomb := Tombstone(done.room, order[0]);
      var next := Progress(Put(done.room, tomb), done.broadcast + [UndoMessage(tomb)], None);
      TombstoneGood(done.room, order[0], passId);
      ServerThen(a, done.room, next.room, done.broadcast, [UndoMessage(tomb)]);
      TakeBackGood(a, next, passId, order[1..]);
    }
  }

  ghost predicate Lists(order: seq<Row>, t: string) {
    exists r :: r in order && r.ticketId == t
  }

  /** The listed claims become tombstones of the gate, and nothing else changes. */
  lemma {:induction false} TakeBackRows(done: Progress, passId: string, order: seq<Row>)
    requires SomeClaims(done.room.rows, passId, order)
    ensures var rows := TakeBack(done, order).room.rows;
            && rows.Keys == done.room.rows.Keys
            && (forall t | t in rows ::
                  if Lists(order, t) then rows[t].removed == Some(ByGate) else rows[t] == done.room.rows[t])
    ensures TakeBack(done, order).room.revoked == done.room.revoked
    decreases order
  {
    if order != [] {
      var tomb := Tombstone(done.room, order[0]);
      TakeBackRows(Progress(Put(done.room, tomb), done.broadcast + [UndoMessage(tomb)], None), passId, order[1..]);
    }
  }

  lemma RevokeGood(st: RoomState, passId: string, order: seq<Row>)
    requires Sane(st) && ListsClaims(st.rows, passId, order)
    ensures var done := TakeBack(Progress(st.(revoked := st.revoked + {passId}), [], None), order);
            ServerGood(st, done.room, done.broadcast)
  {
    var marked := st.(revoked := st.revoked + {passId});
    assert Snapshot(marked) == Snapshot(st);
    TakeBackGood(st, Progress(marked, [], None), passId, order);
  }

  /** A revoke turns exactly the pass's open claims into tombstones. */
  lemma RevokeRows(st: RoomState, passId: string, order: seq<Row>)
    requires Sane(st) && ListsClaims(st.rows, passId, order)
    ensures var room := TakeBack(Progress(st.(revoked := st.revoked + {passId}), [], None), order).room;
            && room.revoked == st.revoked + {passId}
            && room.rows.Keys == st.rows.Keys
            && (forall t | t in st.rows ::
                  if OpenClaim(st.rows[t], passId) then room.rows[t].removed == Some(ByGate)
                  else room.rows[t] == st.rows[t])
  {
    TakeBackRows(Progress(st.(revoked := st.revoked + {passId}), [], None), passId, order);
    forall t | t in st.rows
      ensures OpenClaim(st.rows[t], passId) <==> Lists(order, t)
    {
      if OpenClaim(st.rows[t], passId) {
        assert st.rows[t] in order;
      }
    }
  }

  lemma FromServerGood(st: RoomState, body: ServerBody, order: seq<Row>)
    requires Sane(st)
    requires IsRevoke(body) ==> ListsClaims(st.rows, body.passId.s, order)
    ensures var o := FromServer(st, body, order);
            o.Some? ==> o.value.action.Ok? && ServerGood(st, o.value.room, o.value.action.broadcast)
  {
    var o := FromServer(st, body, order);
    if o.Some? && IsRevoke(body) {
      RevokeGood(st, body.passId.s, order);
    } else if o.Some? && body.kind == Str("in") {
      ServerInGood(st, body.ticketId.s, body.at.value, body.gate);
      assert o.value == ServerIn(st, body.ticketId.s, body.at.value, body.gate);
    } else if o.Some? {
      ServerUndoGood(st, body.ticketId.s, body.at.value);
      assert o.value == ServerUndo(st, body.ticketId.s, body.at.value);
    }
  }
}
