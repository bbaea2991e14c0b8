/**
 * What is kept true of one phone. Up to its cursor it knows every row of the room but its own; and while its link is
 * open, what is on the way to it says the rest, in order.
 *
 * The invariant is kept when the room changes and the phone is told, skipped or left out, and when a bundle arrives.
 */
module Convergence {
  import opened Common
  import opened RelayTypes
  import opened Replica
  import opened RoomProofs
  import opened RoomTheorems
  import opened EventRules
  import opened PhoneRules
  import opened System

  // ----- what a listener may know -----

  /** News the room has said about a ticket: no newer than its row, and equal to it if as new. */
  ghost predicate Sound(room: RoomState, n: News) {
    && n.ticketId in room.rows
    && n.fact.seqNo <= room.rows[n.ticketId].seqNo
    && (n.fact.seqNo == room.rows[n.ticketId].seqNo ==> n == RowNews(room.rows[n.ticketId]))
  }

  ghost predicate SoundReplica(room: RoomState, m: Replica) {
    forall t | t in m :: Sound(room, News(t, m[t]))
  }

  /** The replica has this row's latest news. */
  predicate Has(m: Replica, row: Row) {
    row.ticketId in m && m[row.ticketId] == RowNews(row).fact
  }

  /** A view of this room knows every row up to its cursor that its phone did not write itself. */
  ghost predicate Knows(room: RoomState, own: set<int>, v: View) {
    v.epoch == room.epoch ==>
      && 0 <= v.heard <= room.top
      && SoundReplica(room, v.replica)
      && (forall t | t in room.rows && room.rows[t].seqNo <= v.heard && room.rows[t].seqNo !in own ::
            Has(v.replica, room.rows[t]))
  }

  // ----- what is on the way -----

  predicate IsHello(bundle: seq<Message>) {
    |bundle| == 1 && bundle[0].Hello?
  }

  /** A view once the hello at the head of its queue, if any, has arrived. */
  function Settled(v: View, queue: seq<seq<Message>>): View {
    if queue != [] && IsHello(queue[0]) then HearHello(v, queue[0][0].epoch) else v
  }

  function Rest(queue: seq<seq<Message>>): seq<seq<Message>> {
    if queue != [] && IsHello(queue[0]) then queue[1..] else queue
  }

  predicate Brings(queue: seq<seq<Message>>, n: News) {
    exists b :: b in queue && n in AllNews(b)
  }

  /** The bundles hold news of this room above `heard` and up to `upto`. */
  ghost predicate Timely(room: RoomState, heard: int, queue: seq<seq<Message>>, upto: int) {
    forall b, n | b in queue && n in AllNews(b) ::
      IsUuid(n.ticketId) && heard < n.fact.seqNo <= upto && Sound(room, n)
  }

  predicate Before(a: seq<Message>, b: seq<Message>) {
    forall n, m | n in AllNews(a) && m in AllNews(b) :: n.fact.seqNo < m.fact.seqNo
  }

  /** Earlier bundles have the smaller numbers. */
  ghost predicate InOrder(queue: seq<seq<Message>>) {
    forall i, j | 0 <= i < j < |queue| :: Before(queue[i], queue[j])
  }

  /** Every row past the cursor, up to `upto`, is in the queue or the phone's own. */
  ghost predicate Covers(room: RoomState, own: set<int>, heard: int, queue: seq<seq<Message>>, upto: int) {
    forall t | t in room.rows && heard < room.rows[t].seqNo <= upto && room.rows[t].seqNo !in own ::
      Brings(queue, RowNews(room.rows[t]))
  }

  predicate NoHellos(queue: seq<seq<Message>>) {
    forall b | b in queue :: NoHello(b)
  }

  ghost predicate OnTheWay(room: RoomState, own: set<int>, v: View, queue: seq<seq<Message>>, upto: int) {
    && NoHellos(queue)
    && (v.epoch == room.epoch ==>
          && InOrder(queue)
          && upto <= room.top
          && Timely(room, v.heard, queue, upto)
          && Covers(room, own, v.heard, queue, upto))
  }

  predicate Open(socks: seq<Sock>, id: int) {
    exists ws :: ws in socks && ws.id == id
  }

  ghost predicate LinkOk(room: RoomState, socks: seq<Sock>, ph: Phone, link: Link) {
    var v := Settled(ph.view, link.queue);
    && Knows(room, ph.own, v)
    && OnTheWay(room, ph.own, v, Rest(link.queue), link.upto)
    && (v.epoch == room.epoch && Open(socks, link.sock) ==> link.upto == room.top)
  }

  ghost predicate PhoneOk(room: RoomState, socks: seq<Sock>, epochs: set<string>, ph: Phone) {
    && (ph.view.epoch == "" || ph.view.epoch in epochs)
    && Knows(room, ph.own, ph.view)
    && (ph.link.Some? ==>
          && LinkOk(room, socks, ph, ph.link.value)
          && (var e := Settled(ph.view, ph.link.value.queue).epoch; e == "" || e in epochs))
  }

  // ----- the room changes -----

  lemma {:induction false} NewsIsSound(a: RoomState, b: RoomState, ms: seq<Message>)
    requires WellFormed(a) && WellFormed(b) && AnnouncedOnce(a, b, ms)
    ensures forall n | n in AllNews(ms) :: IsUuid(n.ticketId) && a.top < n.fact.seqNo <= b.top && Sound(b, n)
  {
    var ns := AllNews(ms);
    forall n | n in ns
      ensures IsUuid(n.ticketId) && Sound(b, n)
    {
      LearnAllHighest(Snapshot(a), ns, n.ticketId);
      assert n.ticketId in Snapshot(b);
      assert RowOk(n.ticketId, b.rows[n.ticketId], b.top);
      assert Snapshot(b)[n.ticketId] == RowNews(b.rows[n.ticketId]).fact;
      if n.fact.seqNo == b.rows[n.ticketId].seqNo && n.ticketId in a.rows {
        assert RowOk(n.ticketId, a.rows[n.ticketId], a.top);
      }
    }
  }

  lemma SoundStays(a: RoomState, b: RoomState, n: News)
    requires WellFormed(a) && Grew(a, b) && Sound(a, n)
    ensures Sound(b, n)
  {
    assert RowOk(n.ticketId, a.rows[n.ticketId], a.top);
  }

  lemma {:induction false} KnowsStays(a: RoomState, b: RoomState, own: set<int>, own': set<int>, v: View)
    requires WellFormed(a) && Grew(a, b) && own <= own' && Knows(a, own, v)
    ensures Knows(b, own', v)
  {
    if v.epoch == b.epoch {
      forall t | t in v.replica
        ensures Sound(b, News(t, v.replica[t]))
      {
        SoundStays(a, b, News(t, v.replica[t]));
      }
    }
  }

  lemma {:induction false} TimelyStays(a: RoomState, b: RoomState, heard: int, queue: seq<seq<Message>>, upto: int)
    requires WellFormed(a) && Grew(a, b) && Timely(a, heard, queue, upto)
    ensures Timely(b, heard, queue, upto)
  {
    forall x, n | x in queue && n in AllNews(x)
      ensures Sound(b, n)
    {
      SoundStays(a, b, n);
    }
  }

  lemma {:induction false} LaterTimely(room: RoomState, heard: int, queue: seq<seq<Message>>, upto: int, more: int)
    requires Timely(room, heard, queue, upto) && upto <= more
    ensures Timely(room, heard, queue, more)
  {
  }

  lemma {:induction false} HearerCovers(a: RoomState, b: RoomState, ms: seq<Message>, own: set<int>, own': set<int>,
                                        heard: int, queue: seq<seq<Message>>)
    requires WellFormed(a) && NoneSilent(a, b, AllNews(ms))
    requires own <= own' && Covers(a, own, heard, queue, a.top)
    ensures Covers(b, own', heard, queue + [ms], b.top)
  {
    forall t | t in b.rows && heard < b.rows[t].seqNo && b.rows[t].seqNo !in own'
      ensures Brings(queue + [ms], RowNews(b.rows[t]))
    {
      if t in a.rows && a.rows[t] == b.rows[t] {
        assert RowOk(t, a.rows[t], a.top);
      }
    }
  }

  /** One more bundle, with higher numbers than all before. */
  lemma {:induction false} InOrderMore(queue: seq<seq<Message>>, ms: seq<Message>, upto: int)
    requires InOrder(queue)
    requires forall b, n | b in queue && n in AllNews(b) :: n.fact.seqNo <= upto
    requires forall n | n in AllNews(ms) :: upto < n.fact.seqNo
    ensures InOrder(queue + [ms])
  {
    var q := queue + [ms];
    forall i, j | 0 <= i < j < |q|
      ensures Before(q[i], q[j])
    {
      assert q[i] == queue[i] && queue[i] in queue;
      if j < |queue| {
        assert q[j] == queue[j];
      }
    }
  }

  /** A link the room did not send to: closed, or with nothing to send. */
  lemma {:induction false} UntoldStays(a: RoomState, b: RoomState, own: set<int>, own': set<int>, v: View,
                                       queue: seq<seq<Message>>, upto: int)
    requires WellFormed(a) && Grew(a, b) && own <= own' && OnTheWay(a, own, v, queue, upto)
    ensures OnTheWay(b, own', v, queue, upto)
  {
    if v.epoch == b.epoch {
      TimelyStays(a, b, v.heard, queue, upto);
    }
  }

  /** The sender's own link: what it wrote is its own. */
  lemma {:induction false} OwnStays(a: RoomState, b: RoomState, ms: seq<Message>, own: set<int>, own': set<int>,
                                    v: View, queue: seq<seq<Message>>)
    requires WellFormed(a) && WellFormed(b) && AnnouncedOnce(a, b, ms)
    requires own <= own' && (forall n | n in AllNews(ms) :: n.fact.seqNo in own')
    requires OnTheWay(a, own, v, queue, a.top)
    ensures OnTheWay(b, own', v, queue, b.top)
  {
    if v.epoch == b.epoch {
      TimelyStays(a, b, v.heard, queue, a.top);
      LaterTimely(b, v.heard, queue, a.top, b.top);
    }
  }

  /** The news of a broadcast: of the room as it is then, and newer than all before. */
  ghost predicate NewsOf(b: RoomState, ms: seq<Message>, from: int) {
    forall n | n in AllNews(ms) :: IsUuid(n.ticketId) && from < n.fact.seqNo <= b.top && Sound(b, n)
  }

  lemma {:induction false} HearerTimely(a: RoomState, b: RoomState, ms: seq<Message>, heard: int,
                                        queue: seq<seq<Message>>)
    requires WellFormed(a) && Grew(a, b) && NewsOf(b, ms, a.top)
    requires Timely(a, heard, queue, a.top) && heard <= a.top
    ensures Timely(b, heard, queue + [ms], b.top)
  {
    TimelyStays(a, b, heard, queue, a.top);
    TimelyMore(b, heard, queue, a.top, ms);
  }

  lemma {:induction false} HearerInOrder(a: RoomState, b: RoomState, ms: seq<Message>, heard: int,
                                         queue: seq<seq<Message>>)
    requires NewsOf(b, ms, a.top) && Timely(a, heard, queue, a.top) && InOrder(queue)
    ensures InOrder(queue + [ms])
  {
    InOrderMore(queue, ms, a.top);
  }

  /** A link that hears the broadcast. */
  lemma {:induction false} HearerStays(a: RoomState, b: RoomState, ms: seq<Message>, own: set<int>, own': set<int>,
                                       v: View, queue: seq<seq<Message>>)
    requires WellFormed(a) && WellFormed(b) && AnnouncedOnce(a, b, ms) && NoHello(ms)
    requires own <= own' && (v.epoch == a.epoch ==> v.heard <= a.top)
    requires OnTheWay(a, own, v, queue, a.top)
    ensures OnTheWay(b, own', v, queue + [ms], b.top)
  {
    NewsIsSound(a, b, ms);
    HearerKeeps(a, b, ms, own, own', v, queue);
  }

  lemma {:induction false} HearerKeeps(a: RoomState, b: RoomState, ms: seq<Message>, own: set<int>, own': set<int>,
                                       v: View, queue: seq<seq<Message>>)
    requires WellFormed(a) && Grew(a, b) && NoneSilent(a, b, AllNews(ms)) && NoHello(ms) && NewsOf(b, ms, a.top)
    requires own <= own' && (v.epoch == a.epoch ==> v.heard <= a.top)
    requires OnTheWay(a, own, v, queue, a.top)
    ensures OnTheWay(b, own', v, queue + [ms], b.top)
  {
    NoHelloMore(queue, ms);
    if v.epoch == b.epoch {
      HearerTimely(a, b, ms, v.heard, queue);
      HearerInOrder(a, b, ms, v.heard, queue);
      HearerCovers(a, b, ms, own, own', v.heard, queue);
    }
  }

  lemma NoHelloMore(queue: seq<seq<Message>>, ms: seq<Message>)
    requires NoHellos(queue) && NoHello(ms)
    ensures NoHellos(queue + [ms])
  {
    assert forall x :: x in queue + [ms] <==> x in queue || x == ms;
  }

  lemma {:induction false} TimelyMore(room: RoomState, heard: int, queue: seq<seq<Message>>, upto: int,
                                      ms: seq<Message>)
    requires Timely(room, heard, queue, upto) && heard <= upto <= room.top
    requires forall n | n in AllNews(ms) :: IsUuid(n.ticketId) && upto < n.fact.seqNo <= room.top && Sound(room, n)
    ensures Timely(room, heard, queue + [ms], room.top)
  {
    assert forall x :: x in queue + [ms] <==> x in queue || x == ms;
  }

  // ----- a bundle arrives -----

  lemma {:induction false} EpochStays(v: View, ns: seq<News>)
    ensures HearAllNews(v, ns).epoch == v.epoch
    decreases ns
  {
    if ns != [] {
      EpochStays(HearNews(v, ns[0]), ns[1..]);
    }
  }

  /** Everything behind the head of the queue has higher numbers. */
  lemma {:induction false} BehindHead(queue: seq<seq<Message>>)
    requires queue != [] && InOrder(queue)
    ensures forall b | b in queue[1..] :: b in queue && Before(queue[0], b)
  {
    forall b | b in queue[1..]
      ensures b in queue && Before(queue[0], b)
    {
      var j :| 0 <= j < |queue[1..]| && queue[1..][j] == b;
      assert b == queue[j + 1];
    }
  }

  lemma {:induction false} HeadLearnt(v: View, queue: seq<seq<Message>>)
    requires queue != [] && NoHello(queue[0])
    requires AllOurs(AllNews(queue[0]))
    ensures var w, ns := HearAll(v, queue[0]), AllNews(queue[0]);
            && w.epoch == v.epoch
            && v.heard <= w.heard
            && w.replica == LearnAll(v.replica, ns)
            && (forall n | n in ns :: n.fact.seqNo <= w.heard)
            && (w.heard == v.heard || exists n :: n in ns && n.fact.seqNo == w.heard)
  {
    HearAllIsNews(v, queue[0]);
    HeardNews(v, AllNews(queue[0]));
  }

  /** The cursor after the head bundle: what it was, or a number the bundle carries. */
  lemma {:induction false} CursorFromHead(v: View, queue: seq<seq<Message>>)
    requires queue != [] && NoHello(queue[0]) && AllOurs(AllNews(queue[0]))
    ensures var heard := HearAll(v, queue[0]).heard;
            heard == v.heard || exists n :: n in AllNews(queue[0]) && n.fact.seqNo == heard
  {
    HeadLearnt(v, queue);
  }

  lemma {:induction false} HeadIsOurs(room: RoomState, v: View, queue: seq<seq<Message>>, upto: int)
    requires queue != [] && Timely(room, v.heard, queue, upto)
    ensures forall n | n in AllNews(queue[0]) :: IsUuid(n.ticketId) && v.heard < n.fact.seqNo <= upto
  {
    assert queue[0] in queue;
  }

  /** Nothing later in the queue is heard with the head. */
  lemma {:induction false} TailNewer(room: RoomState, v: View, queue: seq<seq<Message>>, upto: int)
    requires queue != [] && NoHello(queue[0]) && InOrder(queue) && Timely(room, v.heard, queue, upto)
    ensures forall b, m | b in queue[1..] && m in AllNews(b) :: HearAll(v, queue[0]).heard < m.fact.seqNo
  {
    HeadIsOurs(room, v, queue, upto);
    CursorFromHead(v, queue);
    BehindHead(queue);
    forall b, m | b in queue[1..] && m in AllNews(b)
      ensures HearAll(v, queue[0]).heard < m.fact.seqNo
    {
      assert b in queue && Before(queue[0], b);
    }
  }

  /** What the head bundle does to the view: every number it carries is heard, and nothing later in the queue. */
  lemma {:induction false} HeadHeard(room: RoomState, v: View, queue: seq<seq<Message>>, upto: int)
    requires queue != [] && NoHello(queue[0]) && InOrder(queue) && Timely(room, v.heard, queue, upto)
    ensures var w, ns := HearAll(v, queue[0]), AllNews(queue[0]);
            && w.epoch == v.epoch
            && v.heard <= w.heard
            && w.replica == LearnAll(v.replica, ns)
            && (forall n | n in ns :: n.fact.seqNo <= w.heard)
            && (w.heard == v.heard || exists n :: n in ns && n.fact.seqNo == w.heard)
    ensures forall b, m | b in queue[1..] && m in AllNews(b) :: HearAll(v, queue[0]).heard < m.fact.seqNo
  {
    assert queue[0] in queue;
    HeadLearnt(v, queue);
    TailNewer(room, v, queue, upto);
  }

  /** Learning sound news leaves a sound replica. */
  lemma {:induction false} LearnsSound(room: RoomState, m: Replica, ns: seq<News>)
    requires SoundReplica(room, m) && forall n | n in ns :: Sound(room, n)
    ensures SoundReplica(room, LearnAll(m, ns))
  {
    forall t | t in LearnAll(m, ns)
      ensures Sound(room, News(t, LearnAll(m, ns)[t]))
    {
      LearnAllHighest(m, ns, t);
    }
  }

  /** A row whose news arrives, or that was known, is known afterwards. */
  lemma {:induction false} LearnsRow(room: RoomState, m: Replica, ns: seq<News>, row: Row)
    requires WellFormed(room) && row.ticketId in room.rows && room.rows[row.ticketId] == row
    requires SoundReplica(room, m) && forall n | n in ns :: Sound(room, n)
    requires Has(m, row) || RowNews(row) in ns
    ensures Has(LearnAll(m, ns), row)
  {
    LearnAllHighest(m, ns, row.ticketId);
    LearnsSound(room, m, ns);
    var t := row.ticketId;
    assert t in LearnAll(m, ns) && LearnAll(m, ns)[t].seqNo >= row.seqNo;
    assert Sound(room, News(t, LearnAll(m, ns)[t]));
  }

  lemma {:induction false} HeadKnown(room: RoomState, own: set<int>, v: View, queue: seq<seq<Message>>, upto: int)
    requires WellFormed(room) && v.epoch == room.epoch && Knows(room, own, v)
    requires queue != [] && NoHello(queue[0]) && upto <= room.top
    requires InOrder(queue) && Timely(room, v.heard, queue, upto) && Covers(room, own, v.heard, queue, upto)
    ensures Knows(room, own, HearAll(v, queue[0]))
  {
    var w, ns := HearAll(v, queue[0]), AllNews(queue[0]);
    HeadHeard(room, v, queue, upto);
    assert queue[0] in queue;
    LearnsSound(room, v.replica, ns);
    forall t | t in room.rows && room.rows[t].seqNo <= w.heard && room.rows[t].seqNo !in own
      ensures Has(w.replica, room.rows[t])
    {
      assert RowOk(t, room.rows[t], room.top);
      if room.rows[t].seqNo > v.heard {
        HeadCarries(room, own, v, queue, upto, t);
      }
      LearnsRow(room, v.replica, ns, room.rows[t]);
    }
  }

  lemma {:induction false} InHeadOrTail(queue: seq<seq<Message>>, n: News)
    requires queue != [] && Brings(queue, n)
    ensures n in AllNews(queue[0]) || Brings(queue[1..], n)
  {
    var b :| b in queue && n in AllNews(b);
    assert b == queue[0] || b in queue[1..];
  }

  lemma {:induction false} CursorWithin(room: RoomState, v: View, queue: seq<seq<Message>>, upto: int, s: int)
    requires queue != [] && NoHello(queue[0]) && Timely(room, v.heard, queue, upto)
    requires v.heard < s <= HearAll(v, queue[0]).heard
    ensures s <= upto
  {
    HeadIsOurs(room, v, queue, upto);
    CursorFromHead(v, queue);
  }

  /** A row between the old cursor and the new one, not the phone's own, was in the head bundle. */
  lemma {:induction false} HeadCarries(room: RoomState, own: set<int>, v: View, queue: seq<seq<Message>>, upto: int,
                                       t: string)
    requires queue != [] && NoHello(queue[0])
    requires InOrder(queue) && Timely(room, v.heard, queue, upto) && Covers(room, own, v.heard, queue, upto)
    requires t in room.rows && room.rows[t].seqNo !in own
    requires v.heard < room.rows[t].seqNo <= HearAll(v, queue[0]).heard
    ensures RowNews(room.rows[t]) in AllNews(queue[0])
  {
    CursorWithin(room, v, queue, upto, room.rows[t].seqNo);
    InHeadOrTail(queue, RowNews(room.rows[t]));
    TailNewer(room, v, queue, upto);
    assert RowNews(room.rows[t]).fact.seqNo == room.rows[t].seqNo;
  }

  lemma {:induction false} TailCovers(room: RoomState, own: set<int>, v: View, queue: seq<seq<Message>>, upto: int)
    requires queue != [] && NoHello(queue[0]) && InOrder(queue) && Timely(room, v.heard, queue, upto)
    requires Covers(room, own, v.heard, queue, upto)
    ensures Covers(room, own, HearAll(v, queue[0]).heard, queue[1..], upto)
  {
    var w := HearAll(v, queue[0]);
    HeadHeard(room, v, queue, upto);
    forall t | t in room.rows && w.heard < room.rows[t].seqNo <= upto && room.rows[t].seqNo !in own
      ensures Brings(queue[1..], RowNews(room.rows[t]))
    {
      assert Brings(queue, RowNews(room.rows[t]));
      InHeadOrTail(queue, RowNews(room.rows[t]));
      assert RowNews(room.rows[t]).fact.seqNo == room.rows[t].seqNo;
    }
  }

  lemma {:induction false} TailTimely(room: RoomState, v: View, queue: seq<seq<Message>>, upto: int)
    requires queue != [] && NoHello(queue[0]) && InOrder(queue) && Timely(room, v.heard, queue, upto)
    ensures InOrder(queue[1..]) && Timely(room, HearAll(v, queue[0]).heard, queue[1..], upto)
  {
    TailNewer(room, v, queue, upto);
    assert forall b | b in queue[1..] :: b in queue;
  }

  lemma {:induction false} TailOnTheWay(room: RoomState, own: set<int>, v: View, queue: seq<seq<Message>>, upto: int)
    requires queue != [] && OnTheWay(room, own, v, queue, upto)
    ensures OnTheWay(room, own, HearAll(v, queue[0]), queue[1..], upto)
  {
    assert queue[0] in queue && forall b | b in queue[1..] :: b in queue;
    HearAllIsNews(v, queue[0]);
    EpochStays(v, AllNews(queue[0]));
    if v.epoch == room.epoch {
      TailTimely(room, v, queue, upto);
      TailCovers(room, own, v, queue, upto);
    }
  }

  /** The next bundle arrives at a phone. */
  lemma {:induction false} ArrivalOk(room: RoomState, socks: seq<Sock>, epochs: set<string>, ph: Phone)
    requires WellFormed(room) && PhoneOk(room, socks, epochs, ph)
    requires ph.link.Some? && ph.link.value.queue != []
    ensures var link := ph.link.value;
            PhoneOk(room, socks, epochs,
                    ph.(view := HearAll(ph.view, link.queue[0]), link := Some(link.(queue := link.queue[1..]))))
  {
    var link := ph.link.value;
    var w := HearAll(ph.view, link.queue[0]);
    if IsHello(link.queue[0]) {
      assert link.queue[0] == [link.queue[0][0]];
      HearOne(ph.view, link.queue[0][0]);
      assert w == HearHello(ph.view, link.queue[0][0].epoch);
      NoHelloHead(link.queue[1..]);
    } else {
      assert Settled(ph.view, link.queue) == ph.view && Rest(link.queue) == link.queue;
      assert link.queue[0] in link.queue;
      HearAllIsNews(ph.view, link.queue[0]);
      EpochStays(ph.view, AllNews(link.queue[0]));
      TailOnTheWay(room, ph.own, ph.view, link.queue, link.upto);
      if ph.view.epoch == room.epoch {
        HeadKnown(room, ph.own, ph.view, link.queue, link.upto);
      }
      NoHelloHead(link.queue[1..]);
    }
  }

  lemma {:induction false} HearOne(v: View, m: Message)
    ensures HearAll(v, [m]) == Hear(v, m)
  {
    assert [m][1..] == [];
  }

  lemma NoHelloHead(queue: seq<seq<Message>>)
    requires NoHellos(queue)
    ensures queue != [] ==> !IsHello(queue[0])
    ensures forall v :: Settled(v, queue) == v && Rest(queue) == queue
  {
    if queue != [] {
      assert queue[0] in queue;
    }
  }

}
