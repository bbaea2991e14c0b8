/** The room over its store (relay/src/room.ts). */
module Room {
  import opened Common
  import opened RelayTypes
  import Rules = RoomRules
  import opened RoomProofs
  import opened Backlog

  /** The room's tables and counters. */
  class RoomStore {
    var rows: map<string, Row>
    var top: int
    var epoch: string
    var revoked: set<string>

    ghost function State(): RoomState
      reads this
    {
      RoomState(rows, top, epoch, revoked)
    }

    /** An empty room. */
    constructor (epoch: string)
      ensures State() == RoomState(map[], 0, epoch, {})
    {
      this.rows, this.top, this.epoch, this.revoked := map[], 0, epoch, {};
    }

    method Get(id: string) returns (row: Option<Row>)
      ensures row == if id in rows then Some(rows[id]) else None
    {
      row := if id in rows then Some(rows[id]) else None;
    }

    method Put(row: Row)
      modifies this
      ensures State() == old(State()).(rows := old(rows)[row.ticketId := row])
    {
      rows := rows[row.ticketId := row];
    }

    method NextSeq() returns (n: int)
      modifies this
      ensures n == old(top) + 1
      ensures State() == old(State()).(top := n)
    {
      top := top + 1;
      n := top;
    }

    /** Rows changed after a cursor, by ascending number, at most `limit`. */
    method After(cursor: int, limit: nat) returns (page: seq<Row>)
      requires WellFormed(State())
      ensures page == Rules.After(State(), cursor, limit)
    {
      page := [];
      var s := cursor;
      while s < top && |page| < limit
        invariant |page| <= limit
        invariant page + Rules.RowsBetween(rows, s, top) == Rules.RowsBetween(rows, cursor, top)
        decreases top - s
      {
        ghost var rest := Rules.RowsBetween(rows, s, top);
        s := s + 1;
        if t :| t in rows && rows[t].seqNo == s {
          assert Rules.HasSeq(rows, s);
          SeqRowInRoom(State(), s);
          assert rest == [rows[t]] + Rules.RowsBetween(rows, s, top);
          page := page + [rows[t]];
        } else {
          assert !Rules.HasSeq(rows, s);
        }
      }
      if top <= s {
        assert Rules.RowsBetween(rows, s, top) == [];
      }
    }

    /** The standing unconfirmed claims of a pass; the order is the store's. */
    method ClaimsOf(passId: string) returns (claims: seq<Row>)
      requires WellFormed(State())
      ensures Rules.ListsClaims(rows, passId, claims)
    {
      claims := [];
      var left := set t | t in rows && Rules.OpenClaim(rows[t], passId);
      ghost var all := left;
      while left != {}
        invariant left <= all
        invariant Rules.SomeClaims(rows, passId, claims)
        invariant forall r | r in claims :: r.ticketId in all - left
        invariant forall t | t in all - left :: rows[t] in claims
        decreases left
      {
        var t :| t in left;
        assert RowOk(t, rows[t], top);
        claims := claims + [rows[t]];
        left := left - {t};
      }
    }

    /** Everything goes, revocations too; the tables are made again under a new epoch. */
    method DeleteAll(epoch: string)
      modifies this
      ensures State() == RoomState(map[], 0, epoch, {})
    {
      rows, top, revoked := map[], 0, {};
      this.epoch := epoch;
    }

    /** A newer schema empties the check-ins, but keeps who is revoked. */
    method DropCheckIns(epoch: string)
      modifies this
      ensures State() == RoomState(map[], 0, epoch, old(revoked))
    {
      rows, top := map[], 0;
      this.epoch := epoch;
    }

    method Revoke(passId: string)
      modifies this
      ensures State() == old(State()).(revoked := old(revoked) + {passId})
    {
      revoked := revoked + {passId};
    }
  }

  lemma Associative<T>(a: seq<T>, b: seq<T>, c: seq<T>)
    ensures a + (b + c) == (a + b) + c
  {
  }

  lemma {:induction false} MergeStep(ms: seq<Message>, i: nat)
    requires i < |ms|
    ensures Rules.RowsIn(ms[i..]) == (if ms[i].CheckIns? then ms[i].rows else []) + Rules.RowsIn(ms[i + 1..])
    ensures Rules.NotRows(ms[i..]) == (if ms[i].CheckIns? then [] else [ms[i]]) + Rules.NotRows(ms[i + 1..])
  {
    assert ms[i..][1..] == ms[i + 1..];
  }

  lemma {:induction false} PageStep(page: seq<Row>, i: nat)
    requires i < |page|
    ensures Rules.StandingRows(page[i..]) ==
            (if page[i].removed.None? then [Rules.Wire(page[i])] else []) + Rules.StandingRows(page[i + 1..])
    ensures Rules.Undos(page[i..]) ==
            (if page[i].removed.None? then [] else [Rules.UndoMessage(page[i])]) + Rules.Undos(page[i + 1..])
  {
    assert page[i..][1..] == page[i + 1..];
  }

  /** The merge loop. */
  method MergeMessages(ms: seq<Message>) returns (merged: seq<Message>)
    ensures merged == Rules.Merge(ms)
  {
    var rows: seq<WireRow>, rest: seq<Message> := [], [];
    var i := 0;
    while i < |ms|
      invariant 0 <= i <= |ms|
      invariant rows + Rules.RowsIn(ms[i..]) == Rules.RowsIn(ms)
      invariant rest + Rules.NotRows(ms[i..]) == Rules.NotRows(ms)
    {
      MergeStep(ms, i);
      if ms[i].CheckIns? {
        rows := rows + ms[i].rows;
      } else {
        rest := rest + [ms[i]];
      }
      i := i + 1;
    }
    assert ms[i..] == [];
    assert rows == Rules.RowsIn(ms) && rest == Rules.NotRows(ms);
    merged := (if rows == [] then [] else [CheckIns(rows)]) + rest;
  }

  /** One page's messages. */
  method PageOut(page: seq<Row>) returns (out: seq<Message>)
    ensures out == Rules.PageMessages(page)
  {
    var rows: seq<WireRow>, undos: seq<Message> := [], [];
    var i := 0;
    while i < |page|
      invariant 0 <= i <= |page|
      invariant rows + Rules.StandingRows(page[i..]) == Rules.StandingRows(page)
      invariant undos + Rules.Undos(page[i..]) == Rules.Undos(page)
    {
      PageStep(page, i);
      if page[i].removed.None? {
        rows := rows + [Rules.Wire(page[i])];
      } else {
        undos := undos + [Rules.UndoMessage(page[i])];
      }
      i := i + 1;
    }
    assert page[i..] == [];
    assert rows == Rules.StandingRows(page) && undos == Rules.Undos(page);
    out := (if rows == [] then [] else [CheckIns(rows)]) + undos;
  }

  function RoomAfter(st: RoomState, step: Option<Outcome>): RoomState {
    if step.None? then st else step.value.room
  }

  function ActionOf(step: Option<Outcome>): Option<Action> {
    if step.None? then None else Some(step.value.action)
  }

  /** The rules over a store. The clock is a parameter. */
  class Room {
    const store: RoomStore

    constructor (store: RoomStore)
      ensures this.store == store
    {
      this.store := store;
    }

    method Claim(who: Sender, ticketId: Value, at: Value, now: int) returns (action: Option<Action>)
      modifies store
      ensures var step := Rules.Claim(old(store.State()), who, ticketId, at, now);
              action == ActionOf(step) && store.State() == RoomAfter(old(store.State()), step)
    {
      if !Rules.IsUuidValue(ticketId) || !at.Num? || !Rules.Plausible(at.n, now) { return None; }
      var existing := store.Get(ticketId.s);
      if existing.Some? && existing.value.removed.None? { return Some(NOTHING); }
      if |store.rows| >= ROOM_CAP { return Some(NOTHING); }
      if |Rules.OwnedBy(store.rows, who.passId)| >= PASS_CLAIM_CAP { return Some(NOTHING.(warn := Some(who.passId))); }
      var n := store.NextSeq();
      var row := Row(ticketId.s, at.n, Some(who.gate), Some(who.passId), false, n, None);
      store.Put(row);
      action := Some(Ok([CheckIns([Rules.Wire(row)])], true, None, None, None));
    }

    method Unclaim(who: Sender, ticketId: Value) returns (action: Option<Action>)
      modifies store
      ensures var step := Rules.Unclaim(old(store.State()), who, ticketId);
              action == ActionOf(step) && store.State() == RoomAfter(old(store.State()), step)
    {
      if !Rules.IsUuidValue(ticketId) { return None; }
      var row := store.Get(ticketId.s);
      if row.None? || row.value.removed.Some? || row.value.confirmed || row.value.passId != Some(who.passId) {
        return Some(NOTHING);
      }
      var n := store.NextSeq();
      var tomb := row.value.(removed := Some(ByGate), seqNo := n);
      store.Put(tomb);
      action := Some(Ok([Rules.UndoMessage(tomb)], true, None, None, None));
    }

    /** The next page of a catch-up; `more` when it was full. */
    method NextPage(cursor: int) returns (messages: seq<Message>, next: int, more: bool)
      requires WellFormed(store.State())
      ensures Unsent(store.State(), cursor) == messages + if more then Unsent(store.State(), next) else []
      ensures more ==> cursor < next <= store.top
    {
      var page := store.After(cursor, BACKLOG_PAGE);
      if page == [] {
        return [], cursor, false;
      }
      PagesStep(store.State(), cursor);
      messages := PageOut(page);
      next := page[|page| - 1].seqNo;
      more := |page| == BACKLOG_PAGE;
    }

    method Backlog(afterSeq: int, epoch: Option<string>) returns (out: seq<Message>)
      requires WellFormed(store.State())
      ensures out == BacklogOf(store.State(), afterSeq, epoch)
    {
      ghost var st := store.State();
      var cursor := if epoch != Some(store.epoch) || afterSeq > store.top then 0 else afterSeq;
      out := [Hello(store.epoch, store.top)];
      ghost var all, rest := out + Unsent(st, cursor), Unsent(st, cursor);
      var more := true;
      while more
        invariant out + rest == all
        invariant rest == if more then Unsent(st, cursor) else []
        decreases more, store.top - cursor
      {
        ghost var sent := out;
        var messages: seq<Message>;
        messages, cursor, more := NextPage(cursor);
        out := out + messages;
        rest := if more then Unsent(st, cursor) else [];
        Associative(sent, messages, rest);
      }
    }

    method FromPhone(who: Sender, raw: Raw, now: int) returns (action: Action)
      modifies store
      ensures Outcome(store.State(), action) == Rules.FromPhone(old(store.State()), who, raw, now)
    {
      if raw.length > MAX_BATCH_BYTES { return Reject("too large"); }
      if raw.json.NotJson? { return Reject("not JSON"); }
      if raw.json.NotObject? { return Reject("not an object"); }
      if raw.json.t == Str("claims") {
        if raw.json.items.None? || |raw.json.items.value| > MAX_BATCH_ITEMS { return Reject("bad batch"); }
        action := TakeBatch(who, raw.json.items.value, now);
        return;
      }
      if raw.length > MAX_MESSAGE_BYTES { return Reject("too large"); }
      var answer: Option<Action>;
      if raw.json.t == Str("in") {
        answer := Claim(who, raw.json.ticketId, raw.json.at, now);
        return if answer.Some? then answer.value else Reject("bad claim");
      }
      if raw.json.t == Str("undo") {
        answer := Unclaim(who, raw.json.ticketId);
        return if answer.Some? then answer.value else Reject("bad undo");
      }
      action := Reject("unknown message");
    }

    method TakeBatch(who: Sender, items: seq<Item>, now: int) returns (action: Action)
      modifies store
      ensures var done := Rules.Batch(Rules.Progress(old(store.State()), [], None), who, items, now);
              store.State() == done.room && action == Ok(Rules.Merge(done.broadcast), true, None, None, done.warn)
    {
      var broadcast: seq<Message>, warn: Option<string> := [], None;
      ghost var all := Rules.Batch(Rules.Progress(store.State(), [], None), who, items, now);
      var i := 0;
      while i < |items|
        invariant 0 <= i <= |items|
        invariant Rules.Batch(Rules.Progress(store.State(), broadcast, warn), who, items[i..], now) == all
      {
        ghost var done := Rules.Progress(store.State(), broadcast, warn);
        ghost var step := Rules.OneItem(done.room, who, items[i], now);
        assert items[i..][1..] == items[i + 1..];
        var answer: Option<Action> := None;
        if items[i].Item? && items[i].t == Str("in") {
          answer := Claim(who, items[i].ticketId, items[i].at, now);
        } else if items[i].Item? && items[i].t == Str("undo") {
          answer := Unclaim(who, items[i].ticketId);
        }
        assert answer == ActionOf(step) && store.State() == RoomAfter(done.room, step);
        if answer.Some? && answer.value.Ok? {
          broadcast := broadcast + answer.value.broadcast;
          warn := if warn.Some? then warn else answer.value.warn;
        }
        assert Rules.Progress(store.State(), broadcast, warn) == Rules.Advance(done, step);
        i := i + 1;
      }
      var merged := MergeMessages(broadcast);
      action := Ok(merged, true, None, None, warn);
    }

    method TakeBackAll(claims: seq<Row>) returns (broadcast: seq<Message>)
      modifies store
      ensures var done := Rules.TakeBack(Rules.Progress(old(store.State()), [], None), claims);
              store.State() == done.room && broadcast == done.broadcast
    {
      broadcast := [];
      ghost var all := Rules.TakeBack(Rules.Progress(store.State(), [], None), claims);
      var i := 0;
      while i < |claims|
        invariant 0 <= i <= |claims|
        invariant Rules.TakeBack(Rules.Progress(store.State(), broadcast, None), claims[i..]) == all
      {
        assert claims[i..][1..] == claims[i + 1..];
        var n := store.NextSeq();
        var tomb := claims[i].(removed := Some(ByGate), seqNo := n);
        store.Put(tomb);
        broadcast := broadcast + [Rules.UndoMessage(tomb)];
        i := i + 1;
      }
    }

    /** `order` is the listing of the revoked pass's claims that the store gave. */
    method FromServer(body: ServerBody) returns (action: Option<Action>, ghost order: seq<Row>)
      requires WellFormed(store.State())
      modifies store
      ensures Rules.IsRevoke(body) ==> Rules.ListsClaims(old(store.rows), body.passId.s, order)
      ensures var step := Rules.FromServer(old(store.State()), body, order);
              action == ActionOf(step) && store.State() == RoomAfter(old(store.State()), step)
    {
      order := [];
      if body.NotABody? { return None, order; }
      if body.kind == Str("revoke") {
        if !Rules.IsUuidValue(body.passId) { return None, order; }
        store.Revoke(body.passId.s);
        var claims := store.ClaimsOf(body.passId.s);
        order := claims;
        var broadcast := TakeBackAll(claims);
        return Some(Ok(broadcast, false, Some(body.passId.s), body.until, None)), order;
      }
      if !Rules.IsUuidValue(body.ticketId) || body.at.None? { return None, order; }
      var id, at := body.ticketId.s, body.at.value;
      var existing := store.Get(id);
      if body.kind == Str("in") {
        if existing.Some? && existing.value.removed.None? && existing.value.confirmed && existing.value.atMs == at {
          return Some(NOTHING), order;
        }
        if existing.Some? && existing.value.removed == Some(ByServer) && existing.value.atMs >= at {
          return Some(NOTHING), order;
        }
        var n := store.NextSeq();
        var gate := if body.gate.Str? && |body.gate.s| > 0 then Some(body.gate.s) else None;
        var row := Row(id, at, gate, None, true, n, None);
        store.Put(row);
        return Some(Ok([CheckIns([Rules.Wire(row)])], false, None, None, None)), order;
      }
      if body.kind == Str("undo") {
        if existing.Some? && existing.value.removed.None? {
          if existing.value.confirmed && existing.value.atMs != at { return Some(NOTHING), order; }
          if !existing.value.confirmed && existing.value.atMs > at + UNDO_SLACK_MS { return Some(NOTHING), order; }
        }
        var n := store.NextSeq();
        var gate := if existing.Some? then existing.value.gate else None;
        var tomb := Row(id, at, gate, None, true, n, Some(ByServer));
        store.Put(tomb);
        return Some(Ok([Rules.UndoMessage(tomb)], false, None, None, None)), order;
      }
      action := None;
    }
  }
}
