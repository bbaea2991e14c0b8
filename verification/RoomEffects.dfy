/** What each message does to the room, told from outside. */
module RoomEffects {
  import opened Common
  import opened RelayTypes
  import opened RoomRules
  import opened RoomProofs
  import opened RoomTheorems

  /** One ticket got this row, with the next number, and nothing else changed. */
  ghost predicate OneRow(a: RoomState, b: RoomState, t: string, row: Row) {
    && b.epoch == a.epoch && b.revoked == a.revoked && b.top == a.top + 1
    && row.seqNo == b.top
    && b.rows.Keys == a.rows.Keys + {t}
    && b.rows[t] == row
    && forall u | u in a.rows && u != t :: b.rows[u] == a.rows[u]
  }

  /** The room is as it was, and nobody hears anything. */
  predicate Ignored(st: RoomState, o: Outcome) {
    o.room == st && o.action.Ok? && o.action.broadcast == [] && o.action.closePass.None? && o.action.keepUntil.None?
  }

  /** Heard by all but the sending socket. */
  predicate TellsOthers(action: Action, m: Message) {
    action == Ok([m], true, None, None, None)
  }

  /** Heard by all. */
  predicate TellsAll(action: Action, m: Message) {
    action == Ok([m], false, None, None, None)
  }

  // ----- a phone's messages -----

  predicate GoodBatch(json: PhoneJson) {
    json.PhoneObject? && json.t == Str("claims") && json.items.Some? && |json.items.value| <= 300
  }

  predicate NamesTicket(json: PhoneJson) {
    json.PhoneObject? && json.ticketId.Str? && IsUuid(json.ticketId.s)
  }

  /** An admit whose time is no more than five minutes ahead, nor more than a day and a half old. */
  predicate GoodAdmit(json: PhoneJson, now: int) {
    && NamesTicket(json) && json.t == Str("in")
    && json.at.Num? && -129_600_000 <= json.at.n - now <= 300_000
  }

  predicate GoodUndo(json: PhoneJson) {
    NamesTicket(json) && json.t == Str("undo")
  }

  /** A message is taken exactly when it is a short enough admit, undo or batch; else the reason says what is wrong. */
  lemma {:induction false} TakenIff(st: RoomState, who: Sender, raw: Raw, now: int)
    ensures var o := FromPhone(st, who, raw, now);
            && (o.action.Ok? <==>
                  || (raw.length <= 32_768 && GoodBatch(raw.json))
                  || (raw.length <= 1_024 && (GoodAdmit(raw.json, now) || GoodUndo(raw.json))))
            && (o.action == Reject("too large") <==>
                  || raw.length > 32_768
                  || (raw.length > 1_024 && raw.json.PhoneObject? && raw.json.t != Str("claims")))
            && (o.action == Reject("not JSON") <==> raw.length <= 32_768 && raw.json.NotJson?)
            && (o.action == Reject("not an object") <==> raw.length <= 32_768 && raw.json.NotObject?)
            && (o.action == Reject("bad batch") <==>
                  raw.length <= 32_768 && raw.json.PhoneObject? && raw.json.t == Str("claims") && !GoodBatch(raw.json))
            && (o.action == Reject("bad claim") <==>
                  raw.length <= 1_024 && raw.json.PhoneObject? && raw.json.t == Str("in") && !GoodAdmit(raw.json, now))
            && (o.action == Reject("bad undo") <==>
                  raw.length <= 1_024 && raw.json.PhoneObject? && raw.json.t == Str("undo") && !GoodUndo(raw.json))
            && (o.action.Reject? ==> o.room == st)
  {
    Reasons();
  }

  lemma Reasons()
    ensures |"too large"| == 9 && |"not JSON"| == 8 && |"not an object"| == 13 && |"unknown message"| == 15
    ensures "bad batch" != "bad claim" && |"bad undo"| == 8 && "bad undo" != "not JSON" && "too large" != "bad batch"
    ensures "too large" != "bad claim" && |"bad batch"| == |"bad claim"| == 9
  {
    assert "bad batch"[4] == 'b' && "bad claim"[4] == 'c' && "too large"[0] == 't';
    assert "bad undo"[0] == 'b' && "not JSON"[0] == 'n';
  }

  /**
   * A phone's admit makes its claim exactly when the ticket does not stand and there is room for one more row: 20,000
   * in all and 2,000 of the pass. The others hear it. Only a full pass is warned of.
   */
  lemma {:induction false} AdmitIff(st: RoomState, who: Sender, raw: Raw, now: int)
    requires Sane(st) && raw.length <= 1_024 && GoodAdmit(raw.json, now)
    ensures var o := FromPhone(st, who, raw, now);
            var t, at := raw.json.ticketId.s, raw.json.at.n;
            var claim := Row(t, at, Some(who.gate), Some(who.passId), false, st.top + 1, None);
            var stands := t in st.rows && st.rows[t].removed.None?;
            && (OneRow(st, o.room, t, claim) <==>
                  !stands && |st.rows| < 20_000 && |OwnedBy(st.rows, who.passId)| < 2_000)
            && (OneRow(st, o.room, t, claim) ==>
                  TellsOthers(o.action, CheckIns([WireRow(t, at, Some(who.gate), false, st.top + 1)])))
            && (!OneRow(st, o.room, t, claim) ==> Ignored(st, o))
            && (o.action.Ok? && o.action.warn.Some? <==>
                  !stands && |st.rows| < 20_000 && 2_000 <= |OwnedBy(st.rows, who.passId)|)
            && (o.action.Ok? && o.action.warn.Some? ==> o.action.warn.value == who.passId)
  {
    AdmitOutcome(st, who, raw, now);
    var t := raw.json.ticketId.s;
    PutIsOneRow(st, t, Row(t, raw.json.at.n, Some(who.gate), Some(who.passId), false, st.top + 1, None));
  }

  lemma {:induction false} AdmitOutcome(st: RoomState, who: Sender, raw: Raw, now: int)
    requires raw.length <= 1_024 && GoodAdmit(raw.json, now)
    ensures var t, at := raw.json.ticketId.s, raw.json.at.n;
            var claim := Row(t, at, Some(who.gate), Some(who.passId), false, st.top + 1, None);
            var free := !Standing(st.rows, t) && |st.rows| < 20_000;
            var full := 2_000 <= |OwnedBy(st.rows, who.passId)|;
            FromPhone(st, who, raw, now) ==
            if free && !full then
              Outcome(Put(st, claim),
                      Ok([CheckIns([WireRow(t, at, Some(who.gate), false, st.top + 1)])], true, None, None, None))
            else Outcome(st, Ok([], false, None, None, if free then Some(who.passId) else None))
  {
    assert FromPhone(st, who, raw, now) == Claim(st, who, raw.json.ticketId, raw.json.at, now).value;
  }

  lemma {:induction false} PutIsOneRow(st: RoomState, t: string, row: Row)
    requires row.ticketId == t && row.seqNo == st.top + 1
    ensures OneRow(st, Put(st, row), t, row) && !OneRow(st, st, t, row)
  {
  }

  /** A phone's undo takes a claim back exactly when it stands, unconfirmed, and is the pass's own; others hear it. */
  lemma {:induction false} PhoneUndoIff(st: RoomState, who: Sender, raw: Raw, now: int)
    requires Sane(st) && raw.length <= 1_024 && GoodUndo(raw.json)
    ensures var o := FromPhone(st, who, raw, now);
            var t := raw.json.ticketId.s;
            var own := t in st.rows && st.rows[t].removed.None? && !st.rows[t].confirmed &&
                       st.rows[t].passId == Some(who.passId);
            && (own <==> t in st.rows &&
                         OneRow(st, o.room, t, st.rows[t].(removed := Some(ByGate), seqNo := st.top + 1)))
            && (own ==> TellsOthers(o.action, Undo(t, ByGate, st.rows[t].atMs, st.top + 1)))
            && (!own ==> Ignored(st, o) && o.action.warn.None?)
  {
    var t := raw.json.ticketId.s;
    assert FromPhone(st, who, raw, now) == Unclaim(st, who, raw.json.ticketId).value;
    if t in st.rows {
      assert RowOk(t, st.rows[t], st.top);
    }
  }

  // ----- a batch -----

  /** An item as a message of its own, of any length taken. */
  function Alone(item: Item, length: nat): Raw
    requires item.Item?
  {
    Raw(length, PhoneObject(item.t, item.ticketId, item.at, None))
  }

  function Warned(action: Action): Option<string> {
    if action.Ok? then action.warn else None
  }

  /** The items sent one by one: the room, all that was told, and the first warning. No object: passed over. */
  function OneByOne(done: Progress, who: Sender, items: seq<Item>, length: nat, now: int): Progress
    decreases items
  {
    if items == [] then done
    else if items[0].NotAnObject? then OneByOne(done, who, items[1..], length, now)
    else
      var o := FromPhone(done.room, who, Alone(items[0], length), now);
      OneByOne(Progress(o.room, done.broadcast + Broadcast(o.action),
                        if done.warn.Some? then done.warn else Warned(o.action)),
               who, items[1..], length, now)
  }

  lemma {:induction false} OneIsAlone(st: RoomState, who: Sender, item: Item, length: nat, now: int)
    requires item.Item? && length <= 1_024
    ensures var o := FromPhone(st, who, Alone(item, length), now);
            var step := OneItem(st, who, item, now);
            if step.None? then o.action.Reject? && o.room == st
            else o == step.value && o.action.Ok?
  {
  }

  lemma {:induction false} BatchOneByOne(done: Progress, who: Sender, items: seq<Item>, length: nat, now: int)
    requires length <= 1_024
    ensures Batch(done, who, items, now) == OneByOne(done, who, items, length, now)
    decreases items
  {
    if items != [] {
      if items[0].Item? {
        OneIsAlone(done.room, who, items[0], length, now);
        assert done.broadcast + [] == done.broadcast;
      }
      BatchOneByOne(Advance(done, OneItem(done.room, who, items[0], now)), who, items[1..], length, now);
    }
  }

  /** A batch does what its items do one by one; what they tell is told rows first; the first warning is given. */
  lemma {:induction false} BatchIsItsItems(st: RoomState, who: Sender, raw: Raw, length: nat, now: int)
    requires raw.length <= 32_768 && GoodBatch(raw.json) && length <= 1_024
    ensures var o := FromPhone(st, who, raw, now);
            var each := OneByOne(Progress(st, [], None), who, raw.json.items.value, length, now);
            && o.room == each.room
            && o.action == Ok(Merge(each.broadcast), true, None, None, each.warn)
  {
    BatchOneByOne(Progress(st, [], None), who, raw.json.items.value, length, now);
  }

  // ----- the server's messages -----

  predicate AboutTicket(body: ServerBody) {
    body.Body? && body.ticketId.Str? && IsUuid(body.ticketId.s) && body.at.Some?
  }

  /** The gate announced; none if it is no text or empty. */
  predicate IsGate(v: Value, gate: Option<string>) {
    if v.Str? && v.s != "" then gate == Some(v.s) else gate == None
  }

  /** A body is refused exactly when it is neither a revoke of a pass nor a check-in or undo of a ticket at a time. */
  lemma {:induction false} RefusedIff(st: RoomState, body: ServerBody, order: seq<Row>)
    ensures FromServer(st, body, order).None? <==>
            !(body.Body? && body.kind == Str("revoke") && body.passId.Str? && IsUuid(body.passId.s)) &&
            !(AboutTicket(body) && (body.kind == Str("in") || body.kind == Str("undo")))
  {
    assert "revoke"[0] == 'r' && "in"[0] == 'i' && "undo"[0] == 'u';
  }

  /**
   * A check-in announced becomes the ticket's confirmed row, and all hear it, exactly unless it stands confirmed at
   * that time already, or the server has since undone one of that time or later.
   */
  lemma {:induction false} AnnouncedIff(st: RoomState, body: ServerBody, order: seq<Row>, gate: Option<string>)
    requires Sane(st) && AboutTicket(body) && body.kind == Str("in") && IsGate(body.gate, gate)
    ensures var o := FromServer(st, body, order);
            var t, at := body.ticketId.s, body.at.value;
            var row := Row(t, at, gate, None, true, st.top + 1, None);
            var known := t in st.rows && st.rows[t].confirmed &&
                         (if st.rows[t].removed.None? then st.rows[t].atMs == at else at <= st.rows[t].atMs);
            && o.Some?
            && (OneRow(st, o.value.room, t, row) <==> !known)
            && (!known ==> TellsAll(o.value.action, CheckIns([WireRow(t, at, gate, true, st.top + 1)])))
            && (known ==> Ignored(st, o.value))
  {
    var t := body.ticketId.s;
    AnnouncedOutcome(st, body, order, gate);
    PutIsOneRow(st, t, Row(t, body.at.value, gate, None, true, st.top + 1, None));
    if t in st.rows {
      assert RowOk(t, st.rows[t], st.top);
      var removed := st.rows[t].removed;
      assert removed.Some? ==> removed == Some(ByGate) || removed == Some(ByServer) by {
        if removed.Some? { match removed.value case ByGate => case ByServer => }
      }
    }
  }

  lemma {:induction false} AnnouncedOutcome(st: RoomState, body: ServerBody, order: seq<Row>, gate: Option<string>)
    requires AboutTicket(body) && body.kind == Str("in") && IsGate(body.gate, gate)
    ensures var t, at := body.ticketId.s, body.at.value;
            var row := Row(t, at, gate, None, true, st.top + 1, None);
            var known := (Standing(st.rows, t) && st.rows[t].confirmed && st.rows[t].atMs == at)
                         || (t in st.rows && st.rows[t].removed == Some(ByServer) && at <= st.rows[t].atMs);
            FromServer(st, body, order) ==
            Some(if known then Outcome(st, NOTHING)
                 else Outcome(Put(st, row), Ok([CheckIns([WireRow(t, at, gate, true, st.top + 1)])], false, None, None,
                                               None)))
  {
    assert body.kind != Str("revoke") by { assert "in"[0] == 'i'; }
    assert FromServer(st, body, order) == Some(ServerIn(st, body.ticketId.s, body.at.value, body.gate));
    assert body.gate.Str? ==> (body.gate.s != "" <==> |body.gate.s| > 0);
  }

  /**
   * The server's undo becomes the ticket's tombstone, whatever was there, exactly unless another check-in stands: one
   * confirmed at another time, or a claim more than five seconds newer.
   */
  lemma {:induction false} ServerUndoIff(st: RoomState, body: ServerBody, order: seq<Row>)
    requires Sane(st) && AboutTicket(body) && body.kind == Str("undo")
    ensures var o := FromServer(st, body, order);
            var t, at := body.ticketId.s, body.at.value;
            var gate := if t in st.rows then st.rows[t].gate else None;
            var another := t in st.rows && st.rows[t].removed.None? &&
                           (if st.rows[t].confirmed then st.rows[t].atMs != at else at + 5_000 < st.rows[t].atMs);
            && o.Some?
            && (OneRow(st, o.value.room, t, Row(t, at, gate, None, true, st.top + 1, Some(ByServer))) <==> !another)
            && (!another ==> TellsAll(o.value.action, Undo(t, ByServer, at, st.top + 1)))
            && (another ==> Ignored(st, o.value))
  {
    var t := body.ticketId.s;
    assert FromServer(st, body, order) == Some(ServerUndo(st, t, body.at.value));
    if t in st.rows {
      assert RowOk(t, st.rows[t], st.top);
    }
  }

  /** What a revoke makes of a row. */
  predicate TakenBack(was: Row, now: Row) {
    now == was.(removed := Some(ByGate), seqNo := now.seqNo)
  }

  lemma {:induction false} TakeBackExact(done: Progress, passId: string, order: seq<Row>)
    requires SomeClaims(done.room.rows, passId, order)
    ensures var after := TakeBack(done, order);
            && after.room.epoch == done.room.epoch
            && after.room.top == done.room.top + |order|
            && (forall r | r in order :: r.ticketId in after.room.rows &&
                                         TakenBack(r, after.room.rows[r.ticketId]))
            && |after.broadcast| == |done.broadcast| + |order|
    decreases order
  {
    if order != [] {
      var tomb := Tombstone(done.room, order[0]);
      var next := Progress(Put(done.room, tomb), done.broadcast + [UndoMessage(tomb)], None);
      TakeBackExact(next, passId, order[1..]);
      TakeBackRows(next, passId, order[1..]);
      assert !Lists(order[1..], order[0].ticketId);
      assert forall r | r in order :: r == order[0] || r in order[1..];
    }
  }

  /**
   * A revoke takes back exactly the pass's open claims, each announced once by number, closes its sockets, and asks for
   * the room to be kept until the time it names.
   */
  lemma {:induction false} RevokedIff(st: RoomState, body: ServerBody, order: seq<Row>)
    requires Sane(st) && body.Body? && body.kind == Str("revoke") && body.passId.Str? && IsUuid(body.passId.s)
    requires ListsClaims(st.rows, body.passId.s, order)
    ensures var o := FromServer(st, body, order);
            && o.Some?
            && var room, action := o.value.room, o.value.action;
            && room.revoked == st.revoked + {body.passId.s} && room.rows.Keys == st.rows.Keys
            && (forall t | t in st.rows ::
                  if st.rows[t].passId == Some(body.passId.s) && !st.rows[t].confirmed && st.rows[t].removed.None?
                  then TakenBack(st.rows[t], room.rows[t]) && st.top < room.rows[t].seqNo
                  else room.rows[t] == st.rows[t])
            && action.Ok? && AnnouncedOnce(st, room, action.broadcast)
            && !action.skipSender && action.warn.None?
            && action.closePass == Some(body.passId.s) && action.keepUntil == body.until
  {
    var marked := st.(revoked := st.revoked + {body.passId.s});
    var done := TakeBack(Progress(marked, [], None), order);
    RevokeRows(st, body.passId.s, order);
    TakeBackExact(Progress(marked, [], None), body.passId.s, order);
    FromServerAnnouncedOnce(st, body, order);
    forall t | t in st.rows && OpenClaim(st.rows[t], body.passId.s)
      ensures TakenBack(st.rows[t], done.room.rows[t]) && st.top < done.room.rows[t].seqNo
    {
      assert st.rows[t] in order && RowOk(t, st.rows[t], st.top);
      assert done.room.rows[t] != st.rows[t];
    }
  }
}
