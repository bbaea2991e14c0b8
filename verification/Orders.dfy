/** Announcements of one check-in and of its undo, in any order and any number of copies. */
module Orders {
  import opened Common
  import opened RelayTypes
  import opened RoomRules
  import opened Replica
  import opened RoomProofs
  import opened RoomTheorems

  datatype Delivery =
    | ByPhone(who: Sender, raw: Raw, now: int)
    | ByOurServer(body: ServerBody, order: seq<Row>)

  function Deliver(st: RoomState, d: Delivery): RoomState {
    match d
    case ByPhone(who, raw, now) => FromPhone(st, who, raw, now).room
    case ByOurServer(body, order) =>
      var o := FromServer(st, body, order);
      if o.None? then st else o.value.room
  }

  function DeliverAll(st: RoomState, ds: seq<Delivery>): RoomState
    decreases ds
  {
    if ds == [] then st else DeliverAll(Deliver(st, ds[0]), ds[1..])
  }

  ghost predicate Deliverable(st: RoomState, d: Delivery) {
    d.ByOurServer? && IsRevoke(d.body) ==> ListsClaims(st.rows, d.body.passId.s, d.order)
  }

  ghost predicate AllDeliverable(st: RoomState, ds: seq<Delivery>)
    decreases ds
  {
    ds == [] || (Deliverable(st, ds[0]) && AllDeliverable(Deliver(st, ds[0]), ds[1..]))
  }

  // ----- what a delivery says about a ticket -----

  predicate ItemClaims(item: Item, t: string) {
    item.Item? && item.t == Str("in") && item.ticketId == Str(t)
  }

  predicate ClaimsTicket(raw: Raw, t: string) {
    && raw.json.PhoneObject?
    && (if raw.json.t == Str("claims") then
          raw.json.items.Some? && exists item :: item in raw.json.items.value && ItemClaims(item, t)
        else raw.json.t == Str("in") && raw.json.ticketId == Str(t))
  }

  predicate IsUndo(d: Delivery, t: string) {
    d.ByOurServer? && d.body.Body? && d.body.kind == Str("undo") && d.body.ticketId == Str(t) && d.body.at.Some?
  }

  predicate IsIn(d: Delivery, t: string) {
    d.ByOurServer? && d.body.Body? && d.body.kind == Str("in") && d.body.ticketId == Str(t) && d.body.at.Some?
  }

  /** No phone claims the ticket, and what the server says about it is about its check-in at `at`. */
  predicate OnlyAbout(d: Delivery, t: string, at: int) {
    && (d.ByPhone? ==> !ClaimsTicket(d.raw, t))
    && (IsIn(d, t) || IsUndo(d, t) ==> d.body.at.value == at)
  }

  predicate UndoneAt(rows: map<string, Row>, t: string, at: int) {
    t in rows && rows[t].removed == Some(ByServer) && rows[t].atMs == at
  }

  predicate ConfirmedAt(rows: map<string, Row>, t: string, at: int) {
    t in rows && rows[t].removed.None? && rows[t].confirmed && rows[t].atMs == at
  }

  predicate SameRow(a: map<string, Row>, b: map<string, Row>, t: string) {
    (t in a <==> t in b) && (t in a ==> a[t] == b[t])
  }

  // ----- one delivery -----

  lemma {:induction false} BatchLeaves(done: Progress, who: Sender, items: seq<Item>, now: int, t: string)
    requires forall item | item in items :: !ItemClaims(item, t)
    requires Keyed(done.room.rows)
    requires t in done.room.rows ==> done.room.rows[t].confirmed && done.room.rows[t].passId.None?
    ensures SameRow(Batch(done, who, items, now).room.rows, done.room.rows, t)
    decreases items
  {
    if items != [] {
      assert items[0] in items;
      BatchLeaves(Advance(done, OneItem(done.room, who, items[0], now)), who, items[1..], now, t);
    }
  }

  lemma PhoneLeaves(st: RoomState, who: Sender, raw: Raw, now: int, t: string)
    requires WellFormed(st) && !ClaimsTicket(raw, t)
    requires t in st.rows ==> st.rows[t].confirmed
    ensures SameRow(FromPhone(st, who, raw, now).room.rows, st.rows, t)
  {
    assert Keyed(st.rows) && (t in st.rows ==> st.rows[t].passId.None?) by {
      assert forall u | u in st.rows :: RowOk(u, st.rows[u], st.top);
    }
    if raw.json.PhoneObject? && raw.json.t == Str("claims") && raw.json.items.Some? {
      BatchLeaves(Progress(st, [], None), who, raw.json.items.value, now, t);
    }
  }

  lemma ServerLeaves(st: RoomState, body: ServerBody, order: seq<Row>, t: string)
    requires Sane(st) && Deliverable(st, ByOurServer(body, order))
    requires !IsIn(ByOurServer(body, order), t) && !IsUndo(ByOurServer(body, order), t)
    requires t in st.rows ==> st.rows[t].confirmed
    ensures SameRow(Deliver(st, ByOurServer(body, order)).rows, st.rows, t)
  {
    if IsRevoke(body) {
      RevokeRows(st, body.passId.s, order);
    }
  }

  lemma DeliverySane(st: RoomState, d: Delivery)
    requires Sane(st) && Deliverable(st, d)
    ensures Sane(Deliver(st, d))
  {
    match d
    case ByPhone(who, raw, now) => FromPhoneAnnouncedOnce(st, who, raw, now);
    case ByOurServer(body, order) => FromServerAnnouncedOnce(st, body, order);
  }

  /** The gate a tombstone carries when this delivery is the ticket's first. */
  function GateOf(d: Delivery): Option<string> {
    if d.ByOurServer? && d.body.Body? && d.body.kind == Str("in") && d.body.gate.Str? && |d.body.gate.s| > 0
    then Some(d.body.gate.s) else None
  }

  lemma FirstAnnouncement(st: RoomState, d: Delivery, t: string, at: int)
    requires IsUuid(t) && t !in st.rows && OnlyAbout(d, t, at) && (IsIn(d, t) || IsUndo(d, t))
    ensures var rows := Deliver(st, d).rows;
            && (IsUndo(d, t) ==> UndoneAt(rows, t, at))
            && (IsIn(d, t) ==> ConfirmedAt(rows, t, at))
            && rows[t].gate == GateOf(d)
  {
  }

  lemma LaterAnnouncement(st: RoomState, d: Delivery, t: string, at: int)
    requires IsUuid(t) && OnlyAbout(d, t, at) && (IsIn(d, t) || IsUndo(d, t))
    requires ConfirmedAt(st.rows, t, at) || UndoneAt(st.rows, t, at)
    ensures var rows := Deliver(st, d).rows;
            && (if IsUndo(d, t) || UndoneAt(st.rows, t, at) then UndoneAt(rows, t, at) else ConfirmedAt(rows, t, at))
            && rows[t].gate == st.rows[t].gate
  {
  }

  // ----- any number of deliveries -----

  function HasUndo(ds: seq<Delivery>, t: string): bool {
    ds != [] && (IsUndo(ds[0], t) || HasUndo(ds[1..], t))
  }

  /** The gate named by the first word on the ticket: none when an undo comes first. */
  function FirstGate(ds: seq<Delivery>, t: string): Option<string> {
    if ds == [] then None
    else if IsIn(ds[0], t) || IsUndo(ds[0], t) then GateOf(ds[0])
    else FirstGate(ds[1..], t)
  }

  lemma {:induction false} Settles(st: RoomState, ds: seq<Delivery>, t: string, at: int)
    requires Sane(st) && IsUuid(t) && AllDeliverable(st, ds)
    requires forall d | d in ds :: OnlyAbout(d, t, at)
    requires (ConfirmedAt(st.rows, t, at) && HasUndo(ds, t)) || UndoneAt(st.rows, t, at)
    ensures var rows := DeliverAll(st, ds).rows; UndoneAt(rows, t, at) && rows[t].gate == st.rows[t].gate
    decreases ds
  {
    if ds != [] {
      OneMore(st, ds[0], t, at);
      Settles(Deliver(st, ds[0]), ds[1..], t, at);
    }
  }

  lemma OneMore(st: RoomState, d: Delivery, t: string, at: int)
    requires Sane(st) && IsUuid(t) && Deliverable(st, d) && OnlyAbout(d, t, at)
    requires ConfirmedAt(st.rows, t, at) || UndoneAt(st.rows, t, at)
    ensures var next := Deliver(st, d);
            && Sane(next)
            && (if IsUndo(d, t) || UndoneAt(st.rows, t, at) then UndoneAt(next.rows, t, at)
                else ConfirmedAt(next.rows, t, at))
            && next.rows[t].gate == st.rows[t].gate
  {
    DeliverySane(st, d);
    assert RowOk(t, st.rows[t], st.top);
    if IsIn(d, t) || IsUndo(d, t) {
      LaterAnnouncement(st, d, t, at);
    } else {
      Unconcerned(st, d, t);
    }
  }

  lemma Unconcerned(st: RoomState, d: Delivery, t: string)
    requires Sane(st) && Deliverable(st, d) && !IsIn(d, t) && !IsUndo(d, t)
    requires d.ByPhone? ==> !ClaimsTicket(d.raw, t)
    requires t in st.rows ==> st.rows[t].confirmed
    ensures SameRow(Deliver(st, d).rows, st.rows, t)
  {
    match d
    case ByPhone(who, raw, now) => PhoneLeaves(st, who, raw, now, t);
    case ByOurServer(body, order) => ServerLeaves(st, body, order, t);
  }

  /**
   * From a room that has no row for the ticket: copies of its check-in and of its undo, interleaved in any way with
   * anything else, leave the server's tombstone once one undo is among them. Its gate is the first copy's.
   */
  lemma {:induction false} AnnouncementsConverge(st: RoomState, ds: seq<Delivery>, t: string, at: int)
    requires Sane(st) && IsUuid(t) && t !in st.rows && AllDeliverable(st, ds)
    requires forall d | d in ds :: OnlyAbout(d, t, at)
    requires HasUndo(ds, t)
    ensures var rows := DeliverAll(st, ds).rows; UndoneAt(rows, t, at) && rows[t].gate == FirstGate(ds, t)
    decreases ds
  {
    DeliverySane(st, ds[0]);
    if IsIn(ds[0], t) || IsUndo(ds[0], t) {
      FirstAnnouncement(st, ds[0], t, at);
      Settles(Deliver(st, ds[0]), ds[1..], t, at);
    } else {
      Unconcerned(st, ds[0], t);
      AnnouncementsConverge(Deliver(st, ds[0]), ds[1..], t, at);
    }
  }

  /** Two orders tell the phones the same thing; the stored rows differ exactly when their first copies' gates do. */
  lemma OrdersAgree(st: RoomState, ds: seq<Delivery>, es: seq<Delivery>, t: string, at: int)
    requires Sane(st) && IsUuid(t) && t !in st.rows && AllDeliverable(st, ds) && AllDeliverable(st, es)
    requires forall d | d in ds :: OnlyAbout(d, t, at)
    requires forall e | e in es :: OnlyAbout(e, t, at)
    requires HasUndo(ds, t) && HasUndo(es, t)
    ensures var a, b := DeliverAll(st, ds).rows, DeliverAll(st, es).rows;
            && t in a && t in b
            && RowNews(a[t].(seqNo := 0)) == RowNews(b[t].(seqNo := 0)) == News(t, Out(ByServer, at, 0))
            && (a[t].(seqNo := 0) == b[t].(seqNo := 0) <==> FirstGate(ds, t) == FirstGate(es, t))
  {
    AnnouncementsConverge(st, ds, t, at);
    AnnouncementsConverge(st, es, t, at);
    DeliverAllSane(st, ds);
    DeliverAllSane(st, es);
    assert RowOk(t, DeliverAll(st, ds).rows[t], DeliverAll(st, ds).top);
    assert RowOk(t, DeliverAll(st, es).rows[t], DeliverAll(st, es).top);
  }

  lemma {:induction false} DeliverAllSane(st: RoomState, ds: seq<Delivery>)
    requires Sane(st) && AllDeliverable(st, ds)
    ensures Sane(DeliverAll(st, ds))
    decreases ds
  {
    if ds != [] {
      DeliverySane(st, ds[0]);
      DeliverAllSane(Deliver(st, ds[0]), ds[1..]);
    }
  }

  /** A phone's admit of a ticket at a plausible time. */
  predicate AdmitsAt(raw: Raw, t: string, claimed: int, now: int) {
    && raw.length <= MAX_MESSAGE_BYTES && raw.json.PhoneObject?
    && raw.json.t == Str("in") && raw.json.ticketId == Str(t) && raw.json.at == Num(claimed)
    && Plausible(claimed, now)
  }

  /**
   * Without the rule against phone claims it fails. A phone's claim made after the undo stands again, caps permitting,
   * whatever plausible time it names: one before the undone check-in too.
   */
  lemma ClaimReplacesTombstone(st: RoomState, who: Sender, raw: Raw, t: string, at: int, claimed: int, now: int)
    requires Sane(st) && UndoneAt(st.rows, t, at) && AdmitsAt(raw, t, claimed, now)
    ensures var room := FromPhone(st, who, raw, now).room;
            && (Standing(room.rows, t) <==> |st.rows| < ROOM_CAP && |OwnedBy(st.rows, who.passId)| < PASS_CLAIM_CAP)
            && (Standing(room.rows, t) ==> ClaimedAt(room.rows, t, who, claimed, st.top + 1))
  {
    assert RowOk(t, st.rows[t], st.top);
  }

  /**
   * A late copy of either announcement after such a claim: a copy of the undo takes the claim back exactly when its
   * time is no more than five seconds past the undone check-in's, and leaves it otherwise; a copy of the check-in
   * brings the undone check-in itself back.
   */
  lemma LateCopyIff(st: RoomState, who: Sender, raw: Raw, t: string, at: int, claimed: int, now: int, d: Delivery)
    requires Sane(st) && UndoneAt(st.rows, t, at) && AdmitsAt(raw, t, claimed, now)
    requires Standing(FromPhone(st, who, raw, now).room.rows, t)
    requires OnlyAbout(d, t, at) && (IsIn(d, t) || IsUndo(d, t))
    ensures var once := FromPhone(st, who, raw, now).room;
            var room := Deliver(once, d);
            && (IsIn(d, t) ==> ConfirmedAt(room.rows, t, at))
            && (IsUndo(d, t) ==>
                  if claimed <= at + UNDO_SLACK_MS then UndoneAt(room.rows, t, at) else room == once)
  {
    assert RowOk(t, st.rows[t], st.top);
    ClaimReplacesTombstone(st, who, raw, t, at, claimed, now);
    var once := FromPhone(st, who, raw, now).room;
    assert once.rows[t] == Row(t, claimed, Some(who.gate), Some(who.passId), false, st.top + 1, None);
    if IsIn(d, t) {
      LateIn(once, d, t, at);
    }
  }

  /** The check-in's announcement over a phone's claim confirms it, at the announced time. */
  lemma LateIn(st: RoomState, d: Delivery, t: string, at: int)
    requires IsUuid(t) && Standing(st.rows, t) && !st.rows[t].confirmed
    requires OnlyAbout(d, t, at) && IsIn(d, t)
    ensures ConfirmedAt(Deliver(st, d).rows, t, at)
  {
  }
}
