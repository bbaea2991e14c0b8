/** The room's rules (relay/src/room.ts) as functions from a room to a room and an action. */
module RoomRules {
  import opened Common
  import opened RelayTypes

  // ----- the store's queries -----

  predicate Standing(rows: map<string, Row>, id: string) {
    id in rows && rows[id].removed.None?
  }

  /** Tickets whose row is still this pass's own, standing or not. */
  function OwnedBy(rows: map<string, Row>, passId: string): set<string> {
    set t | t in rows && rows[t].passId == Some(passId)
  }

  predicate OpenClaim(row: Row, passId: string) {
    row.passId == Some(passId) && !row.confirmed && row.removed.None?
  }

  /** Some standing unconfirmed claims of a pass, each once. */
  ghost predicate SomeClaims(rows: map<string, Row>, passId: string, order: seq<Row>) {
    && (forall i | 0 <= i < |order| ::
          order[i].ticketId in rows && rows[order[i].ticketId] == order[i] && OpenClaim(order[i], passId))
    && (forall i, j | 0 <= i < j < |order| :: order[i].ticketId != order[j].ticketId)
  }

  /** All of them, in whatever order the store gives. */
  ghost predicate ListsClaims(rows: map<string, Row>, passId: string, order: seq<Row>) {
    SomeClaims(rows, passId, order) && forall t | t in rows && OpenClaim(rows[t], passId) :: rows[t] in order
  }

  function Put(st: RoomState, row: Row): RoomState {
    st.(rows := st.rows[row.ticketId := row], top := row.seqNo)
  }

  // ----- the wire -----

  function Wire(row: Row): WireRow {
    WireRow(row.ticketId, row.atMs, row.gate, row.confirmed, row.seqNo)
  }

  function UndoMessage(row: Row): Message {
    Undo(row.ticketId, if row.removed.Some? then row.removed.value else ByServer, row.atMs, row.seqNo)
  }

  function RowsIn(ms: seq<Message>): seq<WireRow> {
    if ms == [] then []
    else (if ms[0].CheckIns? then ms[0].rows else []) + RowsIn(ms[1..])
  }

  function NotRows(ms: seq<Message>): seq<Message> {
    if ms == [] then []
    else (if ms[0].CheckIns? then [] else [ms[0]]) + NotRows(ms[1..])
  }

  /** All rows first, in one message, then everything else in its order. */
  function Merge(ms: seq<Message>): seq<Message> {
    (if RowsIn(ms) == [] then [] else [CheckIns(RowsIn(ms))]) + NotRows(ms)
  }

  // ----- a phone's messages -----

  predicate Plausible(at: int, now: int) {
    now - PAST_LIMIT_MS <= at <= now + FUTURE_SLACK_MS
  }

  predicate IsUuidValue(v: Value) {
    v.Str? && IsUuid(v.s)
  }

  /** A phone's own admit; None for a malformed item. */
  function Claim(st: RoomState, who: Sender, ticketId: Value, at: Value, now: int): Option<Outcome> {
    if !IsUuidValue(ticketId) || !at.Num? || !Plausible(at.n, now) then None
    else if Standing(st.rows, ticketId.s) then Some(Outcome(st, NOTHING))
    else if |st.rows| >= ROOM_CAP then Some(Outcome(st, NOTHING))
    else if |OwnedBy(st.rows, who.passId)| >= PASS_CLAIM_CAP then
      Some(Outcome(st, NOTHING.(warn := Some(who.passId))))
    else
      var row := Row(ticketId.s, at.n, Some(who.gate), Some(who.passId), false, st.top + 1, None);
      Some(Outcome(Put(st, row), Ok([CheckIns([Wire(row)])], true, None, None, None)))
  }

  /** A phone undoing its claim; None when there is no proper ticket id. */
  function Unclaim(st: RoomState, who: Sender, ticketId: Value): Option<Outcome> {
    if !IsUuidValue(ticketId) then None
    else if !Standing(st.rows, ticketId.s) || st.rows[ticketId.s].confirmed
            || st.rows[ticketId.s].passId != Some(who.passId) then Some(Outcome(st, NOTHING))
    else
      var tomb := Tombstone(st, st.rows[ticketId.s]);
      Some(Outcome(Put(st, tomb), Ok([UndoMessage(tomb)], true, None, None, None)))
  }

  datatype Progress = Progress(room: RoomState, broadcast: seq<Message>, warn: Option<string>)

  function OneItem(st: RoomState, who: Sender, item: Item, now: int): Option<Outcome> {
    if item.NotAnObject? then None
    else if item.t == Str("in") then Claim(st, who, item.ticketId, item.at, now)
    else if item.t == Str("undo") then Unclaim(st, who, item.ticketId)
    else None
  }

  /** A batch so far, and one item more. */
  function Advance(done: Progress, step: Option<Outcome>): Progress {
    if step.None? || step.value.action.Reject? then done
    else
      Progress(step.value.room, done.broadcast + step.value.action.broadcast,
               if done.warn.Some? then done.warn else step.value.action.warn)
  }

  /** The rest of a batch, after what is done of it. */
  function Batch(done: Progress, who: Sender, items: seq<Item>, now: int): Progress
    decreases items
  {
    if items == [] then done
    else Batch(Advance(done, OneItem(done.room, who, items[0], now)), who, items[1..], now)
  }

  function OrReject(st: RoomState, step: Option<Outcome>, reason: string): Outcome {
    if step.None? then Outcome(st, Reject(reason)) else step.value
  }

  function FromPhone(st: RoomState, who: Sender, raw: Raw, now: int): Outcome {
    if raw.length > MAX_BATCH_BYTES then Outcome(st, Reject("too large"))
    else if raw.json.NotJson? then Outcome(st, Reject("not JSON"))
    else if raw.json.NotObject? then Outcome(st, Reject("not an object"))
    else if raw.json.t == Str("claims") then
      if raw.json.items.None? || |raw.json.items.value| > MAX_BATCH_ITEMS then Outcome(st, Reject("bad batch"))
      else
        var done := Batch(Progress(st, [], None), who, raw.json.items.value, now);
        Outcome(done.room, Ok(Merge(done.broadcast), true, None, None, done.warn))
    else if raw.length > MAX_MESSAGE_BYTES then Outcome(st, Reject("too large"))
    else if raw.json.t == Str("in") then
      OrReject(st, Claim(st, who, raw.json.ticketId, raw.json.at, now), "bad claim")
    else if raw.json.t == Str("undo") then
      OrReject(st, Unclaim(st, who, raw.json.ticketId), "bad undo")
    else Outcome(st, Reject("unknown message"))
  }

  // ----- the server's announcements -----

  function Tombstone(st: RoomState, claim: Row): Row {
    claim.(removed := Some(ByGate), seqNo := st.top + 1)
  }

  /** Tombstones for the listed claims of a revoked pass, after what is done of them. */
  function TakeBack(done: Progress, order: seq<Row>): Progress
    decreases order
  {
    if order == [] then done
    else
      var tomb := Tombstone(done.room, order[0]);
      TakeBack(Progress(Put(done.room, tomb), done.broadcast + [UndoMessage(tomb)], None), order[1..])
  }

  function ServerIn(st: RoomState, id: string, at: int, gate: Value): Outcome {
    if Standing(st.rows, id) && st.rows[id].confirmed && st.rows[id].atMs == at then Outcome(st, NOTHING)
    else if id in st.rows && st.rows[id].removed == Some(ByServer) && st.rows[id].atMs >= at then Outcome(st, NOTHING)
    else
      var row := Row(id, at, if gate.Str? && |gate.s| > 0 then Some(gate.s) else None, None, true, st.top + 1, None);
      Outcome(Put(st, row), Ok([CheckIns([Wire(row)])], false, None, None, None))
  }

  function ServerUndo(st: RoomState, id: string, at: int): Outcome {
    if Standing(st.rows, id) && st.rows[id].confirmed && st.rows[id].atMs != at then Outcome(st, NOTHING)
    else if Standing(st.rows, id) && !st.rows[id].confirmed && st.rows[id].atMs > at + UNDO_SLACK_MS then
      Outcome(st, NOTHING)
    else
      var gate := if id in st.rows then st.rows[id].gate else None;
      var tomb := Row(id, at, gate, None, true, st.top + 1, Some(ByServer));
      Outcome(Put(st, tomb), Ok([UndoMessage(tomb)], false, None, None, None))
  }

  /** `order` is the store's listing of the revoked pass's claims; only a revoke reads it. None: a bad body. */
  function FromServer(st: RoomState, body: ServerBody, order: seq<Row>): Option<Outcome> {
    if body.NotABody? then None
    else if body.kind == Str("revoke") then
      if !IsUuidValue(body.passId) then None
      else
        var done := TakeBack(Progress(st.(revoked := st.revoked + {body.passId.s}), [], None), order);
        Some(Outcome(done.room, Ok(done.broadcast, false, Some(body.passId.s), body.until, None)))
    else if !IsUuidValue(body.ticketId) || body.at.None? then None
    else if body.kind == Str("in") then Some(ServerIn(st, body.ticketId.s, body.at.value, body.gate))
    else if body.kind == Str("undo") then Some(ServerUndo(st, body.ticketId.s, body.at.value))
    else None
  }

  predicate IsRevoke(body: ServerBody) {
    body.Body? && body.kind == Str("revoke") && IsUuidValue(body.passId)
  }

  // ----- catching up -----

  ghost predicate HasSeq(rows: map<string, Row>, s: int) {
    exists t :: t in rows && rows[t].seqNo == s
  }

  ghost function SeqRow(rows: map<string, Row>, s: int): Row
    requires HasSeq(rows, s)
  {
    var t :| t in rows && rows[t].seqNo == s;
    rows[t]
  }

  /** Every row changed after `from` and no later than `to`, by ascending sequence number. */
  ghost function RowsBetween(rows: map<string, Row>, from: int, last: int): seq<Row>
    decreases last - from
  {
    if last <= from then []
    else (if HasSeq(rows, from + 1) then [SeqRow(rows, from + 1)] else []) + RowsBetween(rows, from + 1, last)
  }

  ghost function After(st: RoomState, cursor: int, limit: nat): seq<Row> {
    var all := RowsBetween(st.rows, cursor, st.top);
    if |all| <= limit then all else all[..limit]
  }

  /** Where a catch-up starts: the beginning for a cursor of another room, or past this one's end. */
  function Start(st: RoomState, afterSeq: int, epoch: Option<string>): int {
    if epoch != Some(st.epoch) || afterSeq > st.top then 0 else afterSeq
  }

  function StandingRows(page: seq<Row>): seq<WireRow> {
    if page == [] then []
    else (if page[0].removed.None? then [Wire(page[0])] else []) + StandingRows(page[1..])
  }

  function Undos(page: seq<Row>): seq<Message> {
    if page == [] then []
    else (if page[0].removed.None? then [] else [UndoMessage(page[0])]) + Undos(page[1..])
  }

  /** One page on the wire: its standing rows in one message, then its undos. */
  function PageMessages(page: seq<Row>): seq<Message> {
    (if StandingRows(page) == [] then [] else [CheckIns(StandingRows(page))]) + Undos(page)
  }
}
