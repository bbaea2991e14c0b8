/**
 * What a bundle does to a phone's mark for one ticket: the mark followed alone, without the time at which it was set,
 * and what the phones' messages say of the ticket.
 *
 * A phone's broadcast puts its claims before its undos, so an undo in it is heard last.
 */
module MarkSteps {
  import opened Common
  import opened RelayTypes
  import opened RoomRules
  import opened Replica
  import opened RoomProofs
  import opened RoomTheorems
  import opened PhoneRules
  import opened Convergence
  import opened RunSteps
  import opened Marks

  // ----- a ticket's mark -----

  /** The mark after some news. */
  function HearOf(mark: Option<Mark>, listed: bool, t: string, ns: seq<News>, now: int): Option<Mark>
    decreases ns
  {
    if ns == [] then mark
    else
      HearOf(if ns[0].ticketId == t then MarkAfter(mark, listed, t, ns[0].fact, now) else mark, listed, t, ns[1..], now)
  }

  /** It is what the phone's marks hold for the ticket. */
  lemma {:induction false} MarksHearOf(
    marks: map<string, Mark>, onList: set<string>, ns: seq<News>, now: int, t: string)
    ensures MarkOf(HearMarks(marks, onList, ns, now), t) == HearOf(MarkOf(marks, t), t in onList, t, ns, now)
    decreases ns
  {
    if ns != [] {
      HearMarkOne(marks, onList, ns[0], now, t);
      MarksHearOf(HearMark(marks, onList, ns[0], now), onList, ns[1..], now, t);
    }
  }

  /** A mark of the relay's, but for when it was set: the time, and whether the server is known to have it. */
  datatype Sight = Unseen | Seen(at: int, sure: bool)

  predicate RelayFed(mark: Option<Mark>) {
    mark.Some? ==> mark.value.source.Relay?
  }

  function SightOf(mark: Option<Mark>): Sight {
    if mark.None? then Unseen else Seen(mark.value.at, mark.value.knownSince.Some?)
  }

  function SightAfter(x: Sight, listed: bool, f: Fact): Sight {
    match f
    case In(at, _, confirmed, _) => if listed && (x.Unseen? || !x.sure || confirmed) then Seen(at, confirmed) else x
    case Out(remover, at, _) =>
      if x.Seen? && (if remover.ByGate? then !x.sure
                     else if !x.sure then x.at <= at + UNDO_SLACK_MS
                     else -SAME_CHECK_IN_MS < x.at - at < SAME_CHECK_IN_MS) then Unseen
      else x
  }

  function SightAll(x: Sight, listed: bool, t: string, ns: seq<News>): Sight
    decreases ns
  {
    if ns == [] then x
    else SightAll(if ns[0].ticketId == t then SightAfter(x, listed, ns[0].fact) else x, listed, t, ns[1..])
  }

  lemma {:induction false} SightHears(mark: Option<Mark>, listed: bool, t: string, ns: seq<News>, now: int)
    requires RelayFed(mark)
    ensures var after := HearOf(mark, listed, t, ns, now);
            RelayFed(after) && SightOf(after) == SightAll(SightOf(mark), listed, t, ns)
    decreases ns
  {
    if ns != [] {
      var next := if ns[0].ticketId == t then MarkAfter(mark, listed, t, ns[0].fact, now) else mark;
      SightHears(next, listed, t, ns[1..], now);
    }
  }

  lemma {:induction false} SightAppend(x: Sight, listed: bool, t: string, a: seq<News>, b: seq<News>)
    ensures SightAll(x, listed, t, a + b) == SightAll(SightAll(x, listed, t, a), listed, t, b)
    decreases a
  {
    if a == [] {
      assert a + b == b;
    } else {
      assert (a + b)[1..] == a[1..] + b;
      SightAppend(if a[0].ticketId == t then SightAfter(x, listed, a[0].fact) else x, listed, t, a[1..], b);
    }
  }

  /** What is on the way, heard bundle by bundle. */
  function SightQueue(x: Sight, listed: bool, t: string, queue: seq<seq<Message>>): Sight
    decreases queue
  {
    if queue == [] then x else SightQueue(SightAll(x, listed, t, AllNews(queue[0])), listed, t, queue[1..])
  }

  lemma {:induction false} SightQueueMore(x: Sight, listed: bool, t: string, queue: seq<seq<Message>>, ms: seq<Message>)
    ensures SightQueue(x, listed, t, queue + [ms]) == SightAll(SightQueue(x, listed, t, queue), listed, t, AllNews(ms))
    decreases queue
  {
    if queue == [] {
      assert queue + [ms] == [ms] && [ms][1..] == [];
    } else {
      assert (queue + [ms])[1..] == queue[1..] + [ms];
      SightQueueMore(SightAll(x, listed, t, AllNews(queue[0])), listed, t, queue[1..], ms);
    }
  }

  lemma {:induction false} SightQueueIs(x: Sight, listed: bool, t: string, queue: seq<seq<Message>>)
    ensures SightQueue(x, listed, t, queue) == SightAll(x, listed, t, AllNews(Concat(queue)))
    decreases queue
  {
    if queue != [] {
      NewsAppend(queue[0], Concat(queue[1..]));
      SightAppend(x, listed, t, AllNews(queue[0]), AllNews(Concat(queue[1..])));
      SightQueueIs(SightAll(x, listed, t, AllNews(queue[0])), listed, t, queue[1..]);
    }
  }

  lemma {:induction false} SightUnheard(x: Sight, listed: bool, t: string, ns: seq<News>)
    requires forall n | n in ns :: n.ticketId != t
    ensures SightAll(x, listed, t, ns) == x
    decreases ns
  {
    if ns != [] {
      assert ns[0] in ns;
      SightUnheard(x, listed, t, ns[1..]);
    }
  }

  // ----- the room changes -----

  /** The mark the room's row asks for. */
  function RowSight(rows: map<string, Row>, t: string, listed: bool): Sight {
    if listed && Standing(rows, t) then Seen(rows[t].atMs, rows[t].confirmed) else Unseen
  }

  /** The mark the phone has instead: none, once a batch took the ticket back and claimed it again. */
  function Expected(rows: map<string, Row>, t: string, listed: bool, lost: bool): Sight {
    if lost then Unseen else RowSight(rows, t, listed)
  }

  predicate Same(a: map<string, Row>, b: map<string, Row>, t: string) {
    (t in a <==> t in b) && (t in a ==> a[t] == b[t])
  }

  predicate TakesBack(ms: seq<Message>, t: string) {
    exists n :: n in AllNews(ms) && n.ticketId == t && n.fact.Out?
  }

  /** The message takes the ticket back and leaves it standing. */
  predicate Renewed(rows: map<string, Row>, ms: seq<Message>, t: string) {
    Standing(rows, t) && TakesBack(ms, t)
  }

  predicate Unsure(x: Sight) {
    x.Seen? ==> !x.sure
  }

  /** What a phone says: claims nobody confirmed, and undos of a gate. */
  predicate PhoneSays(ns: seq<News>) {
    forall n | n in ns :: if n.fact.In? then !n.fact.confirmed else n.fact.remover.ByGate?
  }

  lemma {:induction false} BatchSays(done: Progress, who: Sender, items: seq<Item>, now: int)
    requires PhoneSays(AllNews(done.broadcast))
    ensures PhoneSays(AllNews(Batch(done, who, items, now).broadcast))
    decreases items
  {
    if items != [] {
      var step := OneItem(done.room, who, items[0], now);
      OneItemSays(done.room, who, items[0], now);
      if step.Some? && step.value.action.Ok? {
        NewsAppend(done.broadcast, step.value.action.broadcast);
      }
      BatchSays(Advance(done, step), who, items[1..], now);
    }
  }

  lemma {:induction false} OneSays(row: Row)
    requires row.removed != Some(ByServer)
    ensures row.removed.None? && !row.confirmed ==> PhoneSays(AllNews([CheckIns([Wire(row)])]))
    ensures row.removed.Some? ==> PhoneSays(AllNews([UndoMessage(row)]))
  {
    if row.removed.None? { NewsOfStanding(row); } else { NewsOfTombstone(row); }
  }

  lemma {:induction false} ClaimSays(st: RoomState, who: Sender, ticketId: Value, at: Value, now: int)
    ensures var o := Claim(st, who, ticketId, at, now);
            o.Some? && o.value.action.Ok? ==> PhoneSays(AllNews(o.value.action.broadcast))
  {
    var o := Claim(st, who, ticketId, at, now);
    if o.Some? && o.value.action.Ok? && o.value.action.broadcast != [] {
      var row := Row(ticketId.s, at.n, Some(who.gate), Some(who.passId), false, st.top + 1, None);
      assert o.value.action.broadcast == [CheckIns([Wire(row)])];
      OneSays(row);
    } else {
      assert AllNews([]) == [];
    }
  }

  lemma {:induction false} UnclaimSays(st: RoomState, who: Sender, ticketId: Value)
    ensures var o := Unclaim(st, who, ticketId);
            o.Some? && o.value.action.Ok? ==> PhoneSays(AllNews(o.value.action.broadcast))
  {
    var o := Unclaim(st, who, ticketId);
    if o.Some? && o.value.action.Ok? && o.value.action.broadcast != [] {
      OneSays(Tombstone(st, st.rows[ticketId.s]));
    }
  }

  lemma {:induction false} OneItemSays(st: RoomState, who: Sender, item: Item, now: int)
    ensures var o := OneItem(st, who, item, now);
            o.Some? && o.value.action.Ok? ==> PhoneSays(AllNews(o.value.action.broadcast))
  {
    if item.Item? && item.t == Str("in") {
      ClaimSays(st, who, item.ticketId, item.at, now);
    } else if item.Item? && item.t == Str("undo") {
      UnclaimSays(st, who, item.ticketId);
    }
  }

  lemma {:induction false} MessageSays(st: RoomState, who: Sender, raw: Raw, now: int)
    ensures PhoneSays(AllNews(Broadcast(FromPhone(st, who, raw, now).action)))
  {
    var o := FromPhone(st, who, raw, now);
    if o.action.Ok? {
      if raw.json.t == Str("claims") {
        var told := Batch(Progress(st, [], None), who, raw.json.items.value, now).broadcast;
        BatchSays(Progress(st, [], None), who, raw.json.items.value, now);
        MergeKeepsNews(told);
        SameMembers(AllNews(Merge(told)), AllNews(told));
      } else if raw.json.t == Str("in") {
        ClaimSays(st, who, raw.json.ticketId, raw.json.at, now);
      } else {
        UnclaimSays(st, who, raw.json.ticketId);
      }
    }
  }

  /** Of claims in number order, the ticket's last one shows. */
  lemma {:induction false} LastShows(x: Sight, t: string, ns: seq<News>, n: News)
    requires Unsure(x) && NewsAscend(ns) && PhoneSays(ns) && n in ns && n.ticketId == t
    requires forall m | m in ns :: m.fact.In?
    requires forall m | m in ns && m.ticketId == t :: m.fact.seqNo <= n.fact.seqNo
    ensures SightAll(x, true, t, ns) == Seen(n.fact.at, false)
    decreases ns
  {
    assert ns[0] in ns && forall m | m in ns[1..] :: m in ns;
    var next := if ns[0].ticketId == t then SightAfter(x, true, ns[0].fact) else x;
    if n in ns[1..] {
      LastShows(next, t, ns[1..], n);
    } else {
      forall m | m in ns[1..]
        ensures m.ticketId != t
      {
        var j :| 0 <= j < |ns[1..]| && ns[1..][j] == m;
        assert ns[0].fact.seqNo < ns[j + 1].fact.seqNo;
      }
      SightUnheard(next, true, t, ns[1..]);
    }
  }

  lemma {:induction false} StaysUnsure(x: Sight, listed: bool, t: string, ns: seq<News>)
    requires Unsure(x) && PhoneSays(ns)
    ensures Unsure(SightAll(x, listed, t, ns))
    ensures !listed && x.Unseen? ==> SightAll(x, listed, t, ns).Unseen?
    decreases ns
  {
    if ns != [] {
      assert ns[0] in ns;
      StaysUnsure(if ns[0].ticketId == t then SightAfter(x, listed, ns[0].fact) else x, listed, t, ns[1..]);
    }
  }

  /** One undo of the ticket among undos removes an open claim's mark. */
  lemma {:induction false} UndosHide(x: Sight, listed: bool, t: string, ns: seq<News>)
    requires Unsure(x) && PhoneSays(ns) && forall n | n in ns :: n.fact.Out?
    ensures SightAll(x, listed, t, ns) == if Speaks(ns, t) then Unseen else x
    decreases ns
  {
    if ns != [] {
      assert ns[0] in ns;
      assert forall n :: n in ns <==> n == ns[0] || n in ns[1..];
      UndosHide(if ns[0].ticketId == t then SightAfter(x, listed, ns[0].fact) else x, listed, t, ns[1..]);
    }
  }

  lemma {:induction false} UndosAreOut(ms: seq<Message>)
    requires NoHello(ms) && forall m | m in ms :: !m.CheckIns?
    ensures forall n | n in AllNews(ms) :: n.fact.Out?
  {
    if ms != [] {
      assert ms[0] in ms;
      UndosAreOut(ms[1..]);
    }
  }

  lemma {:induction false} WiresAreIn(rows: seq<WireRow>)
    ensures forall n | n in WiresNews(rows) :: n.fact.In?
  {
    if rows != [] {
      WiresAreIn(rows[1..]);
    }
  }

  /** What a phone tells: rows in number order, then undos. */
  ghost predicate ToldAs(ms: seq<Message>, ins: seq<News>, outs: seq<News>) {
    && AllNews(ms) == ins + outs
    && NewsAscend(ins)
    && (forall n | n in ins :: n.fact.In?)
    && (forall n | n in outs :: n.fact.Out?)
    && PhoneSays(ins) && PhoneSays(outs)
  }

  lemma {:induction false} ToldInTwo(st: RoomState, who: Sender, raw: Raw, now: int)
    returns (ins: seq<News>, outs: seq<News>)
    requires Sane(st)
    ensures ToldAs(Broadcast(FromPhone(st, who, raw, now).action), ins, outs)
  {
    var ms := Broadcast(FromPhone(st, who, raw, now).action);
    var told := PhoneTold(st, who, raw, now);
    ins, outs := WiresNews(RowsIn(told)), AllNews(NotRows(told));
    MergeNews(told);
    PartsAscend(told);
    MessageSays(st, who, raw, now);
    PhoneNoHello(st, who, raw, now);
    WiresAreIn(RowsIn(told));
    NoRowsLeft(told);
    assert forall m | m in NotRows(told) :: m in ms;
    UndosAreOut(NotRows(told));
    assert forall n | n in ins :: n in AllNews(ms);
    assert forall n | n in outs :: n in AllNews(ms);
  }

  /** A listener's mark after it: hidden if the ticket was taken back, else the last claim's. */
  lemma {:induction false} ToldShows(x: Sight, listed: bool, t: string, ms: seq<Message>, ins: seq<News>,
                                     outs: seq<News>, n: News)
    requires ToldAs(ms, ins, outs) && Unsure(x) && (!listed ==> x.Unseen?)
    requires n in AllNews(ms) && n.ticketId == t
    requires forall m | m in AllNews(ms) && m.ticketId == t :: m.fact.seqNo <= n.fact.seqNo
    ensures SightAll(x, listed, t, AllNews(ms)) ==
            if listed && n.fact.In? && !TakesBack(ms, t) then Seen(n.fact.at, false) else Unseen
  {
    SightAppend(x, listed, t, ins, outs);
    StaysUnsure(x, listed, t, ins);
    UndosHide(SightAll(x, listed, t, ins), listed, t, outs);
    assert forall m :: m in AllNews(ms) <==> m in ins || m in outs;
    assert TakesBack(ms, t) <==> Speaks(outs, t);
    if listed && n.fact.In? && !TakesBack(ms, t) {
      LastShows(x, t, ins, n);
    }
  }

  /** No news of a ticket whose row did not change. */
  lemma {:induction false} UnchangedUnsaid(a: RoomState, b: RoomState, ms: seq<Message>, t: string)
    requires WellFormed(a) && WellFormed(b) && AnnouncedOnce(a, b, ms) && Same(a.rows, b.rows, t)
    ensures forall n | n in AllNews(ms) :: n.ticketId != t
  {
    NewsIsSound(a, b, ms);
    if t in a.rows {
      assert RowOk(t, a.rows[t], a.top);
    }
  }

  lemma {:induction false} UnchangedShows(a: RoomState, b: RoomState, ms: seq<Message>, t: string, listed: bool,
                                          lost: bool)
    requires WellFormed(a) && WellFormed(b) && AnnouncedOnce(a, b, ms) && Same(a.rows, b.rows, t)
    ensures SightAll(Expected(a.rows, t, listed, lost), listed, t, AllNews(ms)) == Expected(b.rows, t, listed, lost)
  {
    UnchangedUnsaid(a, b, ms, t);
    SightUnheard(Expected(a.rows, t, listed, lost), listed, t, AllNews(ms));
  }

  /** The news of a changed row is the ticket's last. */
  lemma {:induction false} ChangedSaid(a: RoomState, b: RoomState, ms: seq<Message>, t: string)
    requires WellFormed(a) && WellFormed(b) && AnnouncedOnce(a, b, ms) && !Same(a.rows, b.rows, t)
    ensures t in b.rows && RowNews(b.rows[t]) in AllNews(ms) && RowNews(b.rows[t]).ticketId == t
    ensures forall m | m in AllNews(ms) && m.ticketId == t :: m.fact.seqNo <= RowNews(b.rows[t]).fact.seqNo
  {
    NewsIsSound(a, b, ms);
    assert RowOk(t, b.rows[t], b.top);
  }
}
