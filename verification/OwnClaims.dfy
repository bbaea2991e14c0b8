/** What a phone sends again when its link opens (src/app/door/offline/rules.ts), and that it does no harm. */
module OwnClaims {
  import opened Common
  import opened RelayTypes
  import opened RoomRules
  import opened Replica
  import opened RoomProofs
  import opened Retry
  import opened Resend
  import opened Marks

  /** A scan that waits for the server, as far as the list looks at it. */
  datatype Waiting = Waiting(undone: bool, ticketId: Option<string>)

  /** The server has not had this admit of the phone's own. */
  predicate Unsent(m: Mark) {
    m.source.Own? && m.knownSince.None?
  }

  function AdmitItem(t: string, at: int): Item {
    Item(Str("in"), Str(t), Num(at))
  }

  function UndoItem(t: string): Item {
    Item(Str("undo"), Str(t), Other)
  }

  /** `order` is that in which the phone's marks are listed. */
  function OwnAdmits(marks: map<string, Mark>, order: seq<string>): seq<Item>
    requires forall t | t in order :: t in marks
  {
    if order == [] then []
    else (if Unsent(marks[order[0]]) then [AdmitItem(order[0], marks[order[0]].at)] else []) +
         OwnAdmits(marks, order[1..])
  }

  /** An empty ticket id counts as none. */
  predicate Undoes(marks: map<string, Mark>, item: Waiting) {
    item.undone && item.ticketId.Some? && item.ticketId.value != "" && item.ticketId.value !in marks
  }

  function LocalUndos(marks: map<string, Mark>, outbox: seq<Waiting>): seq<Item> {
    if outbox == [] then []
    else (if Undoes(marks, outbox[0]) then [UndoItem(outbox[0].ticketId.value)] else []) +
         LocalUndos(marks, outbox[1..])
  }

  function OwnClaims(marks: map<string, Mark>, order: seq<string>, outbox: seq<Waiting>): seq<Item>
    requires forall t | t in order :: t in marks
  {
    OwnAdmits(marks, order) + LocalUndos(marks, outbox)
  }

  lemma OneAdmitMore(done: seq<Item>, marks: map<string, Mark>, order: seq<string>, i: nat)
    requires i < |order| && forall t | t in order :: t in marks
    ensures var item := AdmitItem(order[i], marks[order[i]].at);
            (if Unsent(marks[order[i]]) then done + [item] else done) + OwnAdmits(marks, order[i + 1..]) ==
            done + OwnAdmits(marks, order[i..])
  {
    assert order[i..][1..] == order[i + 1..];
  }

  lemma OneUndoMore(done: seq<Item>, marks: map<string, Mark>, outbox: seq<Waiting>, i: nat)
    requires i < |outbox|
    ensures (if Undoes(marks, outbox[i]) then done + [UndoItem(outbox[i].ticketId.value)] else done) +
            LocalUndos(marks, outbox[i + 1..]) ==
            done + LocalUndos(marks, outbox[i..])
  {
    assert outbox[i..][1..] == outbox[i + 1..];
  }

  method UnconfirmedOwnClaims(marks: map<string, Mark>, order: seq<string>, outbox: seq<Waiting>)
    returns (out: seq<Item>)
    requires forall t | t in order :: t in marks
    ensures out == OwnClaims(marks, order, outbox)
  {
    ghost var all := OwnAdmits(marks, order);
    out := [];
    var i := 0;
    assert order[0..] == order;
    while i < |order|
      invariant 0 <= i <= |order|
      invariant out + OwnAdmits(marks, order[i..]) == all
    {
      OneAdmitMore(out, marks, order, i);
      var m := marks[order[i]];
      if Unsent(m) { out := out + [AdmitItem(order[i], m.at)]; }
      i := i + 1;
    }
    assert order[i..] == [] && out == all;
    all := OwnClaims(marks, order, outbox);
    i := 0;
    assert outbox[0..] == outbox;
    while i < |outbox|
      invariant 0 <= i <= |outbox|
      invariant out + LocalUndos(marks, outbox[i..]) == all
    {
      OneUndoMore(out, marks, outbox, i);
      if Undoes(marks, outbox[i]) { out := out + [UndoItem(outbox[i].ticketId.value)]; }
      i := i + 1;
    }
    assert outbox[i..] == [];
  }

  lemma {:induction false} AdmitsAre(marks: map<string, Mark>, order: seq<string>)
    requires forall t | t in order :: t in marks
    ensures forall item :: item in OwnAdmits(marks, order) <==>
              exists t :: t in order && Unsent(marks[t]) && item == AdmitItem(t, marks[t].at)
  {
    if order != [] {
      AdmitsAre(marks, order[1..]);
      assert forall t :: t in order <==> t == order[0] || t in order[1..];
    }
  }

  lemma {:induction false} UndosAre(marks: map<string, Mark>, outbox: seq<Waiting>)
    ensures forall item :: item in LocalUndos(marks, outbox) <==>
              exists w :: w in outbox && Undoes(marks, w) && item == UndoItem(w.ticketId.value)
  {
    if outbox != [] {
      UndosAre(marks, outbox[1..]);
      assert forall w :: w in outbox <==> w == outbox[0] || w in outbox[1..];
    }
  }

  /**
   * What is listed: an admit for each mark of the phone's own that the server has not had, and an undo for each scan in
   * the outbox that was undone, of a ticket without a mark.
   */
  lemma {:induction false} OwnClaimsIff(marks: map<string, Mark>, order: seq<string>, outbox: seq<Waiting>, item: Item)
    requires forall t | t in order :: t in marks
    ensures item in OwnClaims(marks, order, outbox) <==>
            || (exists t :: t in order && marks[t].source.Own? && marks[t].knownSince.None? &&
                            item == Item(Str("in"), Str(t), Num(marks[t].at)))
            || (exists w :: w in outbox && w.undone && w.ticketId.Some? && |w.ticketId.value| > 0 &&
                            w.ticketId.value !in marks && item == Item(Str("undo"), Str(w.ticketId.value), Other))
  {
    AdmitsAre(marks, order);
    UndosAre(marks, outbox);
    if item in OwnAdmits(marks, order) {
      var t :| t in order && Unsent(marks[t]) && item == AdmitItem(t, marks[t].at);
    }
    if item in LocalUndos(marks, outbox) {
      var w :| w in outbox && Undoes(marks, w) && item == UndoItem(w.ticketId.value);
    }
    forall t | t in order && marks[t].source.Own? && marks[t].knownSince.None?
      ensures AdmitItem(t, marks[t].at) in OwnAdmits(marks, order)
    {
      assert Unsent(marks[t]);
    }
    forall w | w in outbox && w.undone && w.ticketId.Some? && |w.ticketId.value| > 0 && w.ticketId.value !in marks
      ensures UndoItem(w.ticketId.value) in LocalUndos(marks, outbox)
    {
      assert Undoes(marks, w);
    }
  }

  /** The list never both claims and undoes a ticket. */
  lemma {:induction false} OwnClaimsNoClash(marks: map<string, Mark>, order: seq<string>, outbox: seq<Waiting>)
    requires forall t | t in order :: t in marks
    ensures NoClash(OwnClaims(marks, order, outbox))
  {
    AdmitsAre(marks, order);
    UndosAre(marks, outbox);
    forall a, b | a in OwnClaims(marks, order, outbox) && b in OwnClaims(marks, order, outbox)
      ensures !Clash(a, b)
    {
    }
  }

  /**
   * A repeat does nothing: the whole list sent in batches, and sent again at any later clock, leaves the room as the
   * first sending left it and tells the others nothing. Asked only that no mark is so far ahead of the room's clock as
   * to be refused at first.
   */
  lemma {:induction false} RepeatsIgnored(st: RoomState, who: Sender, marks: map<string, Mark>, order: seq<string>,
                                          outbox: seq<Waiting>, size: seq<Item> -> nat, now: int, later: int)
    requires WellFormed(st) && forall t | t in order :: t in marks
    requires forall b | b in Batches(OwnClaims(marks, order, outbox)) :: size(b) <= MAX_BATCH_BYTES
    requires now <= later && forall t | t in order :: marks[t].at <= now + FUTURE_SLACK_MS
    ensures var batches := Batches(OwnClaims(marks, order, outbox));
            var once := SendBatches(Progress(st, [], None), who, batches, size, now).room;
            var twice := SendBatches(Progress(once, [], None), who, batches, size, later);
            twice.room == once && AllNews(twice.broadcast) == []
  {
    var items := OwnClaims(marks, order, outbox);
    BatchesAreAll(items);
    OwnClaimsNoClash(marks, order, outbox);
    NoneRipen(marks, order, outbox, now, later);
    ResendTwice(st, who, Batches(items), Batches(items), size, now, later);
  }

  lemma {:induction false} NoneRipen(marks: map<string, Mark>, order: seq<string>, outbox: seq<Waiting>, now: int,
                                     later: int)
    requires now <= later && forall t | t in order :: t in marks && marks[t].at <= now + FUTURE_SLACK_MS
    ensures NoneRipens(OwnClaims(marks, order, outbox), now, later)
  {
    AdmitsAre(marks, order);
    UndosAre(marks, outbox);
  }
}
