/** Repeated and reordered messages: what a second delivery may change, and what the order of deliveries may. */
module Retry {
  import opened Common
  import opened RelayTypes
  import opened RoomRules
  import opened RoomProofs
  import opened RoomTheorems

  ghost predicate SameRowsUpToNumber(a: map<string, Row>, b: map<string, Row>) {
    a.Keys == b.Keys && forall t | t in a :: a[t].(seqNo := 0) == b[t].(seqNo := 0)
  }

  ghost predicate SameUpToNumber(a: RoomState, b: RoomState) {
    a.epoch == b.epoch && a.revoked == b.revoked && SameRowsUpToNumber(a.rows, b.rows)
  }

  // ----- the server's messages -----

  /** A server message delivered twice in a row leaves the rows one delivery leaves, up to their numbers. */
  lemma ServerMessageTwice(st: RoomState, body: ServerBody, order: seq<Row>, again: seq<Row>)
    requires Sane(st)
    requires IsRevoke(body) ==> ListsClaims(st.rows, body.passId.s, order)
    requires FromServer(st, body, order).Some?
    requires IsRevoke(body) ==> ListsClaims(FromServer(st, body, order).value.room.rows, body.passId.s, again)
    ensures var once := FromServer(st, body, order).value.room;
            var twice := FromServer(once, body, again);
            && twice.Some?
            && SameUpToNumber(once, twice.value.room)
            && (body.kind != Str("undo") ==> twice.value.room == once && twice.value.action.broadcast == [])
  {
    var once := FromServer(st, body, order).value.room;
    if IsRevoke(body) {
      FromServerRevokes(st, body, order);
      if again != [] {
        ListedIsOpen(once.rows, body.passId.s, again);
        assert false;
      }
      assert once.revoked + {body.passId.s} == once.revoked;
    }
  }

  lemma ListedIsOpen(rows: map<string, Row>, passId: string, order: seq<Row>)
    requires SomeClaims(rows, passId, order) && order != []
    ensures exists t :: t in rows && OpenClaim(rows[t], passId)
  {
    assert OpenClaim(rows[order[0].ticketId], passId);
  }

  // ----- a batch of marks -----

  /** One item claims the ticket that the other undoes. */
  predicate Clash(a: Item, b: Item) {
    a.Item? && b.Item? && a.t == Str("in") && b.t == Str("undo") && a.ticketId == b.ticketId
  }

  /** No ticket is both claimed and undone. */
  predicate NoClash(items: seq<Item>) {
    forall a, b | a in items && b in items :: !Clash(a, b)
  }

  predicate IsClaim(item: Item) {
    item.Item? && item.t == Str("in") && item.at.Num?
  }

  /** No claim that was refused for its time has become plausible. */
  predicate NoneRipens(items: seq<Item>, now: int, later: int) {
    forall item | item in items && IsClaim(item) && Plausible(item.at.n, later) :: Plausible(item.at.n, now)
  }

  /** Sending this item changes nothing and announces nothing. */
  predicate Settled(st: RoomState, who: Sender, item: Item, now: int) {
    var step := OneItem(st, who, item, now);
    step.None? || (step.value.action.Ok? && step.value.room == st && step.value.action.broadcast == [])
  }

  function RoomAfter(st: RoomState, step: Option<Outcome>): RoomState {
    if step.None? || step.value.action.Reject? then st else step.value.room
  }

  /** An item taken now is settled later. */
  lemma {:induction false} ItemSettles(st: RoomState, who: Sender, item: Item, now: int, later: int)
    requires Keyed(st.rows) && NoneRipens([item], now, later)
    ensures var next := RoomAfter(st, OneItem(st, who, item, now));
            Keyed(next.rows) && Settled(next, who, item, later)
  {
    assert item in [item];
  }

  /** An undo leaves the caps where they were. */
  lemma {:induction false} UndoKeepsCounts(st: RoomState, who: Sender, other: Item, now: int)
    requires Keyed(st.rows) && other.Item? && other.t == Str("undo")
    ensures var next := RoomAfter(st, OneItem(st, who, other, now));
            |next.rows| == |st.rows| && OwnedBy(next.rows, who.passId) == OwnedBy(st.rows, who.passId)
  {
    var step := Unclaim(st, who, other.ticketId);
    assert OneItem(st, who, other, now) == step;
    if step.Some? && step.value.room != st {
      TombstoneKeepsCounts(st, st.rows[other.ticketId.s]);
    }
  }

  /** A settled item stays settled through any item it does not clash with. */
  lemma {:induction false} OneKeepsSettled(st: RoomState, who: Sender, item: Item, other: Item, now: int, later: int)
    requires Keyed(st.rows) && Settled(st, who, item, later) && !Clash(item, other) && !Clash(other, item)
    ensures var next := RoomAfter(st, OneItem(st, who, other, now));
            Keyed(next.rows) && Settled(next, who, item, later)
  {
    if other.Item? && other.t == Str("undo") {
      UndoKeepsCounts(st, who, other, now);
    }
  }

  lemma {:induction false} BatchKeepsSettled(done: Progress, who: Sender, items: seq<Item>, item: Item, now: int,
                                             later: int)
    requires Keyed(done.room.rows) && Settled(done.room, who, item, later)
    requires forall other | other in items :: !Clash(item, other) && !Clash(other, item)
    ensures Settled(Batch(done, who, items, now).room, who, item, later)
    decreases items
  {
    if items != [] {
      assert items[0] in items;
      OneKeepsSettled(done.room, who, item, items[0], now, later);
      BatchKeepsSettled(Advance(done, OneItem(done.room, who, items[0], now)), who, items[1..], item, now, later);
    }
  }

  lemma {:induction false} BatchSettles(done: Progress, who: Sender, items: seq<Item>, now: int, later: int)
    requires Keyed(done.room.rows) && NoClash(items) && NoneRipens(items, now, later)
    ensures forall item | item in items :: Settled(Batch(done, who, items, now).room, who, item, later)
    decreases items
  {
    if items != [] {
      var next := Advance(done, OneItem(done.room, who, items[0], now));
      assert items[0] in items && forall item | item in items[1..] :: item in items;
      ItemSettles(done.room, who, items[0], now, later);
      BatchKeepsSettled(next, who, items[1..], items[0], now, later);
      BatchSettles(next, who, items[1..], now, later);
      assert forall item | item in items :: item == items[0] || item in items[1..];
    }
  }

  lemma {:induction false} SettledBatch(done: Progress, who: Sender, items: seq<Item>, now: int)
    requires forall item | item in items :: Settled(done.room, who, item, now)
    ensures Batch(done, who, items, now).room == done.room
    ensures Batch(done, who, items, now).broadcast == done.broadcast
    decreases items
  {
    if items != [] {
      assert Settled(done.room, who, items[0], now);
      SettledBatch(Advance(done, OneItem(done.room, who, items[0], now)), who, items[1..], now);
    }
  }

  lemma RowsAreKeyed(st: RoomState)
    requires WellFormed(st)
    ensures Keyed(st.rows)
  {
    assert forall t | t in st.rows :: RowOk(t, st.rows[t], st.top);
  }

  /**
   * Re-sending a batch in which no ticket is both claimed and undone changes nothing and hands out no number, even at
   * the caps: at the same clock, and at any other at which no claim refused for its time has become plausible.
   */
  lemma ClaimsBatchTwice(st: RoomState, who: Sender, raw: Raw, now: int, later: int)
    requires WellFormed(st)
    requires raw.json.PhoneObject? && raw.json.t == Str("claims")
    requires raw.json.items.Some? ==> NoClash(raw.json.items.value) && NoneRipens(raw.json.items.value, now, later)
    ensures var once := FromPhone(st, who, raw, now).room;
            var twice := FromPhone(once, who, raw, later);
            twice.room == once && Broadcast(twice.action) == []
  {
    var once := FromPhone(st, who, raw, now);
    if once.action.Ok? {
      var items := raw.json.items.value;
      RowsAreKeyed(st);
      BatchSettles(Progress(st, [], None), who, items, now, later);
      SettledBatch(Progress(once.room, [], None), who, items, later);
    }
  }

  // ----- a batch that takes a claim back and makes it again -----

  function Renewal(t: string, at: int): seq<Item> {
    [Item(Str("undo"), Str(t), Other), Item(Str("in"), Str(t), Num(at))]
  }

  /** A batch that takes a claim back and makes it again, as a text of this length. */
  function TakeBackAndClaim(t: string, at: int, length: nat): Raw {
    Raw(length, PhoneObject(Str("claims"), Other, Other, Some(Renewal(t, at))))
  }

  lemma BatchOfTwo(done: Progress, who: Sender, a: Item, b: Item, now: int)
    ensures var first := Advance(done, OneItem(done.room, who, a, now));
            Batch(done, who, [a, b], now) == Advance(first, OneItem(first.room, who, b, now))
  {
    assert [a, b][1..] == [b] && [b][1..] == [];
    var first := Advance(done, OneItem(done.room, who, a, now));
    var second := Advance(first, OneItem(first.room, who, b, now));
    assert Batch(second, who, [], now) == second;
    assert Batch(first, who, [b], now) == second;
  }

  lemma RenewalRoom(st: RoomState, who: Sender, t: string, at: int, length: nat, now: int)
    requires length <= MAX_BATCH_BYTES
    ensures var room := RoomAfter(st, OneItem(st, who, Renewal(t, at)[0], now));
            FromPhone(st, who, TakeBackAndClaim(t, at, length), now).room ==
            RoomAfter(room, OneItem(room, who, Renewal(t, at)[1], now))
  {
    BatchOfTwo(Progress(st, [], None), who, Renewal(t, at)[0], Renewal(t, at)[1], now);
  }

  predicate BelowCaps(st: RoomState, passId: string) {
    |st.rows| < ROOM_CAP && |OwnedBy(st.rows, passId)| < PASS_CLAIM_CAP
  }

  function ClaimRow(t: string, at: int, who: Sender, seqNo: int): Row {
    Row(t, at, Some(who.gate), Some(who.passId), false, seqNo, None)
  }

  lemma TombstoneKeepsCounts(st: RoomState, claim: Row)
    requires claim.ticketId in st.rows && st.rows[claim.ticketId] == claim
    ensures var next := Put(st, Tombstone(st, claim));
            |next.rows| == |st.rows| && forall p :: OwnedBy(next.rows, p) == OwnedBy(st.rows, p)
  {
    var next := Put(st, Tombstone(st, claim));
    assert next.rows.Keys == st.rows.Keys;
    assert |next.rows.Keys| == |next.rows| && |st.rows.Keys| == |st.rows|;
  }

  /** The claim of the batch, over the tombstone its undo has just made. */
  lemma ClaimAfterUndo(mid: RoomState, who: Sender, t: string, at: int, now: int)
    requires IsUuid(t) && Plausible(at, now) && t in mid.rows && mid.rows[t].removed.Some?
    ensures var step := OneItem(mid, who, Renewal(t, at)[1], now);
            && step.Some? && step.value.action.Ok?
            && step.value.room.rows ==
               if BelowCaps(mid, who.passId) then mid.rows[t := ClaimRow(t, at, who, mid.top + 1)] else mid.rows
  {
    assert OneItem(mid, who, Renewal(t, at)[1], now) == Claim(mid, who, Str(t), Num(at), now);
  }

  lemma UndoFirst(st: RoomState, who: Sender, t: string, at: int, now: int)
    requires IsUuid(t) && t in st.rows && OpenClaim(st.rows[t], who.passId)
    ensures var step := OneItem(st, who, Renewal(t, at)[0], now);
            step.Some? && step.value.action.Ok? && step.value.room == Put(st, Tombstone(st, st.rows[t]))
  {
    assert OneItem(st, who, Renewal(t, at)[0], now) == Unclaim(st, who, Str(t));
  }

  /** Sent over an open claim: the claim is renewed exactly when neither cap is reached, and undone otherwise. */
  lemma RenewOpenClaim(st: RoomState, who: Sender, t: string, at: int, length: nat, now: int)
    requires WellFormed(st) && Plausible(at, now) && length <= MAX_BATCH_BYTES
    requires t in st.rows && OpenClaim(st.rows[t], who.passId)
    ensures var next := FromPhone(st, who, TakeBackAndClaim(t, at, length), now).room;
            next.rows == if BelowCaps(st, who.passId) then st.rows[t := ClaimRow(t, at, who, st.top + 2)]
                         else st.rows[t := Tombstone(st, st.rows[t])]
  {
    assert RowOk(t, st.rows[t], st.top);
    var mid := Put(st, Tombstone(st, st.rows[t]));
    RenewalRoom(st, who, t, at, length, now);
    UndoFirst(st, who, t, at, now);
    ClaimAfterUndo(mid, who, t, at, now);
    TombstoneKeepsCounts(st, st.rows[t]);
  }

  /** Sent with no open claim to take back: a ticket that does not stand is claimed, caps permitting. */
  lemma RenewOther(st: RoomState, who: Sender, t: string, at: int, length: nat, now: int)
    requires IsUuid(t) && Plausible(at, now) && length <= MAX_BATCH_BYTES
    requires t in st.rows ==> !OpenClaim(st.rows[t], who.passId)
    ensures var next := FromPhone(st, who, TakeBackAndClaim(t, at, length), now).room;
            next == if !Standing(st.rows, t) && BelowCaps(st, who.passId) then Put(st, ClaimRow(t, at, who, st.top + 1))
                    else st
  {
    RenewalRoom(st, who, t, at, length, now);
    assert OneItem(st, who, Renewal(t, at)[0], now) == Unclaim(st, who, Str(t));
    assert OneItem(st, who, Renewal(t, at)[1], now) == Claim(st, who, Str(t), Num(at), now);
  }

  lemma OneMoreCount(a: set<string>, b: set<string>, t: string)
    requires b == a + {t}
    ensures |b| == |a| + if t in a then 0 else 1
  {
    if t in a {
      assert b == a;
    }
  }

  lemma ClaimCounts(st: RoomState, row: Row, passId: string)
    requires row.passId == Some(passId)
    ensures |Put(st, row).rows| == |st.rows| + if row.ticketId in st.rows then 0 else 1
    ensures |OwnedBy(Put(st, row).rows, passId)| ==
            |OwnedBy(st.rows, passId)| + if row.ticketId in OwnedBy(st.rows, passId) then 0 else 1
  {
    var next := Put(st, row);
    OneMoreCount(OwnedBy(st.rows, passId), OwnedBy(next.rows, passId), row.ticketId);
    OneMoreCount(st.rows.Keys, next.rows.Keys, row.ticketId);
    assert |next.rows.Keys| == |next.rows| && |st.rows.Keys| == |st.rows|;
  }

  /** The ticket does not stand, and claiming it is allowed but reaches a cap. */
  predicate OneShort(st: RoomState, passId: string, t: string) {
    && !Standing(st.rows, t)
    && BelowCaps(st, passId)
    && ((t !in OwnedBy(st.rows, passId) && |OwnedBy(st.rows, passId)| == PASS_CLAIM_CAP - 1)
        || (t !in st.rows && |st.rows| == ROOM_CAP - 1))
  }

  /** What a second delivery does to a claim the first one left. */
  lemma RenewAgainIff(once: RoomState, who: Sender, t: string, at: int, length: nat, now: int)
    requires WellFormed(once) && Plausible(at, now) && length <= MAX_BATCH_BYTES
    requires t in once.rows && once.rows[t] == ClaimRow(t, at, who, once.rows[t].seqNo)
    ensures var twice := FromPhone(once, who, TakeBackAndClaim(t, at, length), now).room;
            SameRowsUpToNumber(once.rows, twice.rows) <==> BelowCaps(once, who.passId)
  {
    RenewOpenClaim(once, who, t, at, length, now);
    var rows := FromPhone(once, who, TakeBackAndClaim(t, at, length), now).room.rows;
    if !BelowCaps(once, who.passId) {
      assert rows[t].(seqNo := 0) != once.rows[t].(seqNo := 0);
    }
  }

  lemma NeverClaimed(st: RoomState, who: Sender, t: string, at: int, length: nat, now: int)
    requires WellFormed(st) && !(IsUuid(t) && Plausible(at, now)) && length <= MAX_BATCH_BYTES
    ensures var once := FromPhone(st, who, TakeBackAndClaim(t, at, length), now).room;
            FromPhone(once, who, TakeBackAndClaim(t, at, length), now).room == once
  {
    RowsAreKeyed(st);
    var once := FromPhone(st, who, TakeBackAndClaim(t, at, length), now).room;
    RenewalRoom(st, who, t, at, length, now);
    RenewalRoom(once, who, t, at, length, now);
    ItemSettles(st, who, Renewal(t, at)[0], now, now);
  }

  lemma RenewOpenTwice(st: RoomState, who: Sender, t: string, at: int, length: nat, now: int)
    requires Sane(st) && Plausible(at, now) && length <= MAX_BATCH_BYTES
    requires t in st.rows && OpenClaim(st.rows[t], who.passId)
    ensures var once := FromPhone(st, who, TakeBackAndClaim(t, at, length), now).room;
            var twice := FromPhone(once, who, TakeBackAndClaim(t, at, length), now).room;
            SameRowsUpToNumber(once.rows, twice.rows)
  {
    var once := FromPhone(st, who, TakeBackAndClaim(t, at, length), now).room;
    assert RowOk(t, st.rows[t], st.top);
    RenewOpenClaim(st, who, t, at, length, now);
    assert WellFormed(once) by {
      FromPhoneAnnouncedOnce(st, who, TakeBackAndClaim(t, at, length), now);
    }
    SameCounts(st.rows, once.rows, t, who.passId);
    if BelowCaps(st, who.passId) {
      RenewAgainIff(once, who, t, at, length, now);
    } else {
      RenewOther(once, who, t, at, length, now);
    }
  }

  /** A row of the pass's own replaced by another leaves the counts. */
  lemma SameCounts(a: map<string, Row>, b: map<string, Row>, t: string, passId: string)
    requires t in a && t in b && b == a[t := b[t]] && a[t].passId == b[t].passId == Some(passId)
    ensures |a| == |b| && OwnedBy(a, passId) == OwnedBy(b, passId)
  {
    assert a.Keys == b.Keys;
    assert |a.Keys| == |a| && |b.Keys| == |b|;
  }

  lemma RenewNewClaim(st: RoomState, who: Sender, t: string, at: int, length: nat, now: int)
    requires Sane(st) && IsUuid(t) && Plausible(at, now) && length <= MAX_BATCH_BYTES
    requires !Standing(st.rows, t) && BelowCaps(st, who.passId)
    ensures var once := FromPhone(st, who, TakeBackAndClaim(t, at, length), now).room;
            var twice := FromPhone(once, who, TakeBackAndClaim(t, at, length), now).room;
            SameRowsUpToNumber(once.rows, twice.rows) <==> !OneShort(st, who.passId, t)
  {
    var row := ClaimRow(t, at, who, st.top + 1);
    RenewOther(st, who, t, at, length, now);
    assert WellFormed(Put(st, row)) by {
      FromPhoneAnnouncedOnce(st, who, TakeBackAndClaim(t, at, length), now);
    }
    ClaimReaches(st, who, t, row);
    RenewAgainIff(Put(st, row), who, t, at, length, now);
  }

  lemma ClaimReaches(st: RoomState, who: Sender, t: string, row: Row)
    requires !Standing(st.rows, t) && BelowCaps(st, who.passId) && row.ticketId == t && row.passId == Some(who.passId)
    ensures BelowCaps(Put(st, row), who.passId) <==> !OneShort(st, who.passId, t)
  {
    ClaimCounts(st, row, who.passId);
  }

  /**
   * Sent twice, the batch leaves the rows that once leaves (up to their numbers) exactly unless the ticket does not
   * stand and its claim is the one that reaches a cap: the second delivery then takes the admission back and cannot
   * make it again.
   */
  lemma RenewTwiceIff(st: RoomState, who: Sender, t: string, at: int, length: nat, now: int)
    requires Sane(st) && length <= MAX_BATCH_BYTES
    ensures var once := FromPhone(st, who, TakeBackAndClaim(t, at, length), now).room;
            var twice := FromPhone(once, who, TakeBackAndClaim(t, at, length), now).room;
            SameRowsUpToNumber(once.rows, twice.rows) <==>
            !(IsUuid(t) && Plausible(at, now) && OneShort(st, who.passId, t))
  {
    if !(IsUuid(t) && Plausible(at, now)) {
      NeverClaimed(st, who, t, at, length, now);
    } else if t in st.rows && OpenClaim(st.rows[t], who.passId) {
      RenewOpenTwice(st, who, t, at, length, now);
    } else if !Standing(st.rows, t) && BelowCaps(st, who.passId) {
      RenewNewClaim(st, who, t, at, length, now);
    } else {
      RenewOther(st, who, t, at, length, now);
    }
  }

  // ----- a pass one row below its cap -----

  function Digit(n: nat): char {
    '0' + (n % 10) as char
  }

  function Ticket(n: nat): string {
    "0000" + [Digit(n / 10 / 10 / 10), Digit(n / 10 / 10), Digit(n / 10), Digit(n)] + "-0000-4000-8000-000000000000"
  }

  lemma TicketsDiffer(n: nat, m: nat)
    requires n < 10_000 && m < 10_000 && Ticket(n) == Ticket(m)
    ensures n == m
  {
    TicketDigits(n);
    TicketDigits(m);
    SameDigits(n, n / 10, n / 10 / 10, n / 10 / 10 / 10, m, m / 10, m / 10 / 10, m / 10 / 10 / 10);
  }

  lemma SameDigits(a: nat, b: nat, c: nat, d: nat, a': nat, b': nat, c': nat, d': nat)
    requires b == a / 10 && c == b / 10 && d == c / 10 && d / 10 == 0
    requires b' == a' / 10 && c' == b' / 10 && d' == c' / 10 && d' / 10 == 0
    requires Digit(a) == Digit(a') && Digit(b) == Digit(b') && Digit(c) == Digit(c') && Digit(d) == Digit(d')
    ensures a == a'
  {
  }

  lemma TicketDigits(n: nat)
    ensures IsUuid(Ticket(n))
    ensures Ticket(n)[4] == Digit(n / 10 / 10 / 10) && Ticket(n)[5] == Digit(n / 10 / 10)
    ensures Ticket(n)[6] == Digit(n / 10) && Ticket(n)[7] == Digit(n)
  {
  }

  /** A room in which one pass has made n claims. */
  function ClaimedRoom(who: Sender, n: nat): RoomState {
    if n == 0 then RoomState(map[], 0, "", {})
    else Put(ClaimedRoom(who, n - 1), ClaimRow(Ticket(n), 0, who, n))
  }

  lemma {:induction false} ClaimedRoomLacks(who: Sender, n: nat, m: nat)
    requires n < m < 10_000
    ensures Ticket(m) !in ClaimedRoom(who, n).rows
  {
    if n > 0 {
      ClaimedRoomLacks(who, n - 1, m);
      if Ticket(n) == Ticket(m) {
        TicketsDiffer(n, m);
      }
    }
  }

  /** Every row of the room is the one pass's, and there are n of them. */
  ghost predicate ClaimedBy(st: RoomState, who: Sender, n: int) {
    Sane(st) && st.top == n && |st.rows| == n && |OwnedBy(st.rows, who.passId)| == n
  }

  lemma ClaimedByOneMore(st: RoomState, who: Sender, n: int, row: Row)
    requires ClaimedBy(st, who, n) && n < PASS_CLAIM_CAP
    requires row == ClaimRow(row.ticketId, row.atMs, who, n + 1) && IsUuid(row.ticketId) && row.ticketId !in st.rows
    ensures ClaimedBy(Put(st, row), who, n + 1)
  {
    PutSane(st, row);
    ClaimCounts(st, row, who.passId);
  }

  lemma {:induction false} ClaimedRoomCount(who: Sender, n: nat)
    requires n <= PASS_CLAIM_CAP
    ensures ClaimedBy(ClaimedRoom(who, n), who, n)
  {
    if n == 0 {
      ClaimedRoomNew(who);
    } else {
      ClaimedRoomCount(who, n - 1);
      ClaimedRoomNext(who, n);
    }
  }

  lemma ClaimedRoomNew(who: Sender)
    ensures ClaimedBy(ClaimedRoom(who, 0), who, 0)
  {
    NewRoomSane("", {});
    assert OwnedBy(map[], who.passId) == {};
  }

  lemma ClaimedRoomNext(who: Sender, n: nat)
    requires 0 < n <= PASS_CLAIM_CAP && ClaimedBy(ClaimedRoom(who, n - 1), who, n - 1)
    ensures ClaimedBy(ClaimedRoom(who, n), who, n)
  {
    ClaimedRoomLacks(who, n - 1, n);
    TicketDigits(n);
    ClaimedByOneMore(ClaimedRoom(who, n - 1), who, n - 1, ClaimRow(Ticket(n), 0, who, n));
  }

  /** At the per-pass cap the batch is not idempotent: the first delivery admits, the second takes it back. */
  lemma RenewTwiceFailsAtCap(who: Sender, length: nat)
    requires length <= MAX_BATCH_BYTES
    ensures var st := ClaimedRoom(who, PASS_CLAIM_CAP - 1);
            var t := Ticket(PASS_CLAIM_CAP);
            var once := FromPhone(st, who, TakeBackAndClaim(t, 0, length), 0).room;
            var twice := FromPhone(once, who, TakeBackAndClaim(t, 0, length), 0).room;
            && Sane(st)
            && Standing(once.rows, t)
            && t in twice.rows && !Standing(twice.rows, t)
  {
    var n := PASS_CLAIM_CAP - 1;
    var st, t := ClaimedRoom(who, n), Ticket(PASS_CLAIM_CAP);
    ClaimedRoomCount(who, n);
    ClaimedRoomLacks(who, n, PASS_CLAIM_CAP);
    TicketDigits(PASS_CLAIM_CAP);
    var row := ClaimRow(t, 0, who, st.top + 1);
    ClaimedByOneMore(st, who, n, row);
    RenewOther(st, who, t, 0, length, 0);
    RenewOpenClaim(Put(st, row), who, t, 0, length, 0);
  }
}
