/** What a phone sends again (src/app/door/use-relay.ts). */
module Resend {
  import opened Common
  import opened RelayTypes
  import opened RoomRules
  import opened Replica
  import opened RoomProofs
  import opened RoomTheorems
  import opened Retry

  const CLAIMS_PER_BATCH: nat := 200

  /** A phone's own marks, cut into batches. */
  function Batches(claims: seq<Item>): seq<seq<Item>> {
    if claims == [] then []
    else if |claims| <= CLAIMS_PER_BATCH then [claims]
    else [claims[..CLAIMS_PER_BATCH]] + Batches(claims[CLAIMS_PER_BATCH..])
  }

  /** Every mark is in one batch, in order; no batch is empty or larger than the room takes; none could be spared. */
  lemma {:induction false} BatchesAreAll(claims: seq<Item>)
    ensures Concat(Batches(claims)) == claims
    ensures forall b | b in Batches(claims) :: 1 <= |b| <= 200 < MAX_BATCH_ITEMS
    ensures |Batches(claims)| == (|claims| + 199) / 200
  {
    if claims == [] {
    } else if |claims| <= CLAIMS_PER_BATCH {
      assert [claims][1..] == [];
      assert Concat([claims]) == claims + Concat([]);
    } else {
      var rest := Batches(claims[CLAIMS_PER_BATCH..]);
      BatchesAreAll(claims[CLAIMS_PER_BATCH..]);
      assert ([claims[..CLAIMS_PER_BATCH]] + rest)[1..] == rest;
    }
  }

  function BatchText(items: seq<Item>, length: nat): Raw {
    Raw(length, PhoneObject(Str("claims"), Other, Other, Some(items)))
  }

  /** A room after batches taken one message at a time, and all it broadcast; `size` is a batch's length as text. */
  function SendBatches(done: Progress, who: Sender, batches: seq<seq<Item>>, size: seq<Item> -> nat, now: int): Progress
    decreases batches
  {
    if batches == [] then done
    else
      var o := FromPhone(done.room, who, BatchText(batches[0], size(batches[0])), now);
      SendBatches(Progress(o.room, done.broadcast + Broadcast(o.action), None), who, batches[1..], size, now)
  }

  lemma {:induction false} BatchTwo(done: Progress, who: Sender, a: seq<Item>, b: seq<Item>, now: int)
    ensures Batch(done, who, a + b, now) == Batch(Batch(done, who, a, now), who, b, now)
    decreases a
  {
    if a == [] {
      assert a + b == b;
    } else {
      assert (a + b)[1..] == a[1..] + b;
      BatchTwo(Advance(done, OneItem(done.room, who, a[0], now)), who, a[1..], b, now);
    }
  }

  /** What a batch does to the room and adds to the broadcast does not depend on what was done before. */
  lemma {:induction false} BatchAlone(room: RoomState, before: seq<Message>, warn: Option<string>, who: Sender,
                                      items: seq<Item>, told: seq<Message>, mute: Option<string>, now: int)
    ensures var a := Batch(Progress(room, before + told, warn), who, items, now);
            var b := Batch(Progress(room, told, mute), who, items, now);
            a.room == b.room && a.broadcast == before + b.broadcast
    decreases items
  {
    if items != [] {
      var step := OneItem(room, who, items[0], now);
      if step.None? || step.value.action.Reject? {
        BatchAlone(room, before, warn, who, items[1..], told, mute, now);
      } else {
        var more := step.value.action.broadcast;
        assert (before + told) + more == before + (told + more);
        BatchAlone(step.value.room, before, Advance(Progress(room, before + told, warn), step).warn, who, items[1..],
                   told + more, Advance(Progress(room, told, mute), step).warn, now);
      }
    }
  }

  /** One batch message: the room it leaves, and what it tells, is that of its items. */
  lemma {:induction false} OneBatch(room: RoomState, who: Sender, items: seq<Item>, length: nat, now: int)
    requires |items| <= MAX_BATCH_ITEMS && length <= MAX_BATCH_BYTES
    ensures var o := FromPhone(room, who, BatchText(items, length), now);
            var done := Batch(Progress(room, [], None), who, items, now);
            && o.action.Ok? && o.room == done.room
            && multiset(AllNews(Broadcast(o.action))) == multiset(AllNews(done.broadcast))
  {
    MergeKeepsNews(Batch(Progress(room, [], None), who, items, now).broadcast);
  }

  /**
   * Cutting into batches is invisible: the room ends as if it had taken all the marks at once, and the others are
   * told the same news, each item as often.
   */
  lemma {:induction false} BatchesAreInvisible(done: Progress, who: Sender, batches: seq<seq<Item>>,
                                               size: seq<Item> -> nat, now: int)
    requires forall b | b in batches :: |b| <= MAX_BATCH_ITEMS && size(b) <= MAX_BATCH_BYTES
    ensures var sent := SendBatches(done, who, batches, size, now);
            var whole := Batch(done, who, Concat(batches), now);
            sent.room == whole.room && multiset(AllNews(sent.broadcast)) == multiset(AllNews(whole.broadcast))
    decreases batches
  {
    if batches != [] {
      var items := batches[0];
      var o := FromPhone(done.room, who, BatchText(items, size(items)), now);
      var next := Progress(o.room, done.broadcast + Broadcast(o.action), None);
      var alone := Batch(Progress(done.room, [], None), who, items, now);
      assert batches[0] in batches;
      OneBatch(done.room, who, items, size(items), now);
      BatchesAreInvisible(next, who, batches[1..], size, now);
      assert done.broadcast + [] == done.broadcast;
      BatchAlone(done.room, done.broadcast, done.warn, who, items, [], None, now);
      BatchTwo(done, who, items, Concat(batches[1..]), now);
      SameAfter(next, Batch(done, who, items, now), who, Concat(batches[1..]), now, Broadcast(o.action),
                alone.broadcast, done.broadcast);
    }
  }

  lemma {:induction false} SameAfter(a: Progress, b: Progress, who: Sender, items: seq<Item>, now: int,
                                     x: seq<Message>, y: seq<Message>, before: seq<Message>)
    requires a.room == b.room && a.broadcast == before + x && b.broadcast == before + y
    requires multiset(AllNews(x)) == multiset(AllNews(y))
    ensures var c, d := Batch(a, who, items, now), Batch(b, who, items, now);
            c.room == d.room && multiset(AllNews(c.broadcast)) == multiset(AllNews(d.broadcast))
  {
    var alone := Batch(Progress(a.room, [], None), who, items, now);
    assert a.broadcast + [] == a.broadcast && b.broadcast + [] == b.broadcast;
    BatchAlone(a.room, a.broadcast, a.warn, who, items, [], None, now);
    BatchAlone(b.room, b.broadcast, b.warn, who, items, [], None, now);
    NewsAppend(a.broadcast, alone.broadcast);
    NewsAppend(b.broadcast, alone.broadcast);
    NewsAppend(before, x);
    NewsAppend(before, y);
  }

  /**
   * A link that opens again sends the same marks again. If no ticket is both claimed and undone, the second sending
   * changes nothing and tells the others nothing, however it is cut: at the same clock, or at a later one at which no
   * claim refused for its time has become plausible.
   */
  lemma {:induction false} ResendTwice(st: RoomState, who: Sender, batches: seq<seq<Item>>, again: seq<seq<Item>>,
                                       size: seq<Item> -> nat, now: int, later: int)
    requires WellFormed(st)
    requires forall b | b in batches + again :: |b| <= MAX_BATCH_ITEMS && size(b) <= MAX_BATCH_BYTES
    requires Concat(again) == Concat(batches)
    requires NoClash(Concat(batches)) && NoneRipens(Concat(batches), now, later)
    ensures var once := SendBatches(Progress(st, [], None), who, batches, size, now).room;
            var twice := SendBatches(Progress(once, [], None), who, again, size, later);
            twice.room == once && AllNews(twice.broadcast) == []
  {
    var items, start := Concat(batches), Progress(st, [], None);
    assert forall b | b in batches :: b in batches + again;
    assert forall b | b in again :: b in batches + again;
    var once := SendBatches(start, who, batches, size, now).room;
    BatchesAreInvisible(start, who, batches, size, now);
    BatchesAreInvisible(Progress(once, [], None), who, again, size, later);
    RowsAreKeyed(st);
    BatchSettles(start, who, items, now, later);
    SettledBatch(Progress(once, [], None), who, items, later);
    EmptyNews(AllNews(SendBatches(Progress(once, [], None), who, again, size, later).broadcast));
  }

  lemma EmptyNews(ns: seq<News>)
    ensures multiset(ns) == multiset(AllNews([])) ==> ns == []
  {
    if ns != [] {
      assert ns[0] in multiset(ns);
    }
  }

  // ----- other phones between the batches -----

  datatype FromOther = FromOther(who: Sender, raw: Raw, now: int)

  function HearOthers(st: RoomState, others: seq<FromOther>): RoomState
    decreases others
  {
    if others == [] then st
    else HearOthers(FromPhone(st, others[0].who, others[0].raw, others[0].now).room, others[1..])
  }

  /** A mark that stands in the room stands, unchanged, through any messages of other passes, at any clock. */
  lemma {:induction false} StandsThroughOthers(st: RoomState, others: seq<FromOther>, t: string)
    requires Sane(st) && Standing(st.rows, t)
    requires forall other | other in others :: st.rows[t].passId != Some(other.who.passId)
    ensures Sane(HearOthers(st, others))
    ensures t in HearOthers(st, others).rows && HearOthers(st, others).rows[t] == st.rows[t]
    decreases others
  {
    if others != [] {
      assert others[0] in others;
      FromPhoneAnnouncedOnce(st, others[0].who, others[0].raw, others[0].now);
      StandsThroughOthers(FromPhone(st, others[0].who, others[0].raw, others[0].now).room, others[1..], t);
    }
  }
}
