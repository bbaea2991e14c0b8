/** Over every run: when a listening phone's mark for a ticket is what the room says, and when it is not. */
module MarkRuns {
  import opened Common
  import opened RelayTypes
  import opened RoomRules
  import opened Replica
  import opened RoomProofs
  import opened RoomTheorems
  import opened Backlog
  import opened EventRules
  import opened PhoneRules
  import opened System
  import opened Convergence
  import opened RunSteps
  import opened Runs
  import opened Marks
  import opened MarkSteps

  // ----- one message -----

  /** A phone's message, as another phone's mark sees it. */
  lemma {:induction false} PhoneShows(a: RoomState, who: Sender, raw: Raw, now: int, t: string, listed: bool,
                                      lost: bool)
    requires Sane(a)
    ensures var o := FromPhone(a, who, raw, now);
            var ms := Broadcast(o.action);
            SightAll(Expected(a.rows, t, listed, lost), listed, t, AllNews(ms)) ==
            Expected(o.room.rows, t, listed, if Same(a.rows, o.room.rows, t) then lost else Renewed(o.room.rows, ms, t))
  {
    var b := FromPhone(a, who, raw, now).room;
    var ms := Broadcast(FromPhone(a, who, raw, now).action);
    var x := Expected(a.rows, t, listed, lost);
    FromPhoneAnnouncedOnce(a, who, raw, now);
    if Same(a.rows, b.rows, t) {
      UnchangedShows(a, b, ms, t, listed, lost);
    } else {
      ChangedSaid(a, b, ms, t);
      PhoneChangesOpen(a, b, who.passId, t);
      var ins, outs := ToldInTwo(a, who, raw, now);
      ToldShows(x, listed, t, ms, ins, outs, RowNews(b.rows[t]));
    }
  }

  lemma {:induction false} PhoneChangesOpen(a: RoomState, b: RoomState, passId: string, t: string)
    requires WellFormed(a) && WellFormed(b) && Grew(a, b) && PhoneStep(a, b, passId) && !Same(a.rows, b.rows, t)
    ensures t in b.rows && !b.rows[t].confirmed && (Standing(a.rows, t) ==> !a.rows[t].confirmed)
  {
    assert RowOk(t, b.rows[t], b.top);
  }

  // ----- the server's messages -----

  lemma {:induction false} TakeBackSays(done: Progress, order: seq<Row>)
    requires PhoneSays(AllNews(done.broadcast)) && forall n | n in AllNews(done.broadcast) :: n.fact.Out?
    ensures var ns := AllNews(TakeBack(done, order).broadcast); PhoneSays(ns) && forall n | n in ns :: n.fact.Out?
    decreases order
  {
    if order != [] {
      var tomb := Tombstone(done.room, order[0]);
      NewsAppend(done.broadcast, [UndoMessage(tomb)]);
      NewsOfTombstone(tomb);
      TakeBackSays(Progress(Put(done.room, tomb), done.broadcast + [UndoMessage(tomb)], None), order[1..]);
    }
  }

  lemma {:induction false} OneNews(x: Sight, listed: bool, n: News)
    ensures SightAll(x, listed, n.ticketId, [n]) == SightAfter(x, listed, n.fact)
  {
    assert [n][1..] == [];
    assert SightAll(SightAfter(x, listed, n.fact), listed, n.ticketId, []) == SightAfter(x, listed, n.fact);
  }

  lemma {:induction false} RevokeShows(a: RoomState, body: ServerBody, order: seq<Row>, t: string, listed: bool,
                                       lost: bool)
    requires Sane(a) && IsRevoke(body) && ListsClaims(a.rows, body.passId.s, order)
    requires !Same(a.rows, FromServer(a, body, order).value.room.rows, t)
    ensures var o := FromServer(a, body, order).value;
            SightAll(Expected(a.rows, t, listed, lost), listed, t, AllNews(o.action.broadcast)) ==
            Expected(o.room.rows, t, listed, false)
  {
    var o := FromServer(a, body, order).value;
    var x := Expected(a.rows, t, listed, lost);
    FromServerAnnouncedOnce(a, body, order);
    ChangedSaid(a, o.room, o.action.broadcast, t);
    RevokeRows(a, body.passId.s, order);
    TakeBackSays(Progress(a.(revoked := a.revoked + {body.passId.s}), [], None), order);
    assert Speaks(AllNews(o.action.broadcast), t);
    UndosHide(x, listed, t, AllNews(o.action.broadcast));
  }

  lemma {:induction false} AnnouncedShows(a: RoomState, o: Outcome, t: string, listed: bool, lost: bool, id: string,
                                          at: int, gate: Value)
    requires Sane(a) && IsUuid(id) && (o == ServerIn(a, id, at, gate) || o == ServerUndo(a, id, at))
    requires !Same(a.rows, o.room.rows, t)
    ensures o.action.Ok?
    ensures SightAll(Expected(a.rows, t, listed, lost), listed, t, AllNews(o.action.broadcast)) ==
            Expected(o.room.rows, t, listed, false)
  {
    var x := Expected(a.rows, t, listed, lost);
    assert t == id;
    var row := o.room.rows[id];
    if row.removed.None? { NewsOfStanding(row); } else { NewsOfTombstone(row); }
    OneNews(x, listed, RowNews(row));
  }

  lemma {:induction false} ServerShows(a: RoomState, body: ServerBody, order: seq<Row>, t: string, listed: bool,
                                       lost: bool)
    requires Sane(a) && FromServer(a, body, order).Some?
    requires IsRevoke(body) ==> ListsClaims(a.rows, body.passId.s, order)
    ensures var o := FromServer(a, body, order).value;
            SightAll(Expected(a.rows, t, listed, lost), listed, t, AllNews(Broadcast(o.action))) ==
            Expected(o.room.rows, t, listed, Same(a.rows, o.room.rows, t) && lost)
  {
    var o := FromServer(a, body, order).value;
    if Same(a.rows, o.room.rows, t) {
      FromServerAnnouncedOnce(a, body, order);
      UnchangedShows(a, o.room, o.action.broadcast, t, listed, lost);
    } else if IsRevoke(body) {
      RevokeShows(a, body, order, t, listed, lost);
    } else {
      assert o == ServerIn(a, body.ticketId.s, body.at.value, body.gate) ||
             o == ServerUndo(a, body.ticketId.s, body.at.value);
      AnnouncedShows(a, o, t, listed, lost, body.ticketId.s, body.at.value, body.gate);
    }
  }

  // ----- a phone that listens -----

  /** The phone's link is an open socket. */
  ghost predicate Listening(s: State, p: int) {
    p in s.phones && s.phones[p].link.Some? && Open(s.relay.socks, s.phones[p].link.value.sock)
  }

  predicate OwnSend(s: State, step: Step, p: int)
    requires p in s.phones && s.phones[p].link.Some?
  {
    step.Send? && step.ws.id == s.phones[p].link.value.sock
  }

  /** A step through which the phone listens on: no rebuild, and no message of its own that changes the ticket. */
  ghost predicate Live(s: State, step: Step, p: int, t: string)
    requires Listening(s, p)
  {
    && Enabled(s, step) && Listening(Next(s, step), p) && !step.Upgrade?
    && (OwnSend(s, step, p) ==> Same(s.relay.room.rows, Next(s, step).relay.room.rows, t))
  }

  ghost predicate LiveRun(s: State, steps: seq<Step>, p: int, t: string)
    requires Listening(s, p)
    decreases steps
  {
    steps == [] || (Live(s, steps[0], p, t) && LiveRun(Next(s, steps[0]), steps[1..], p, t))
  }

  /** The ticket's mark after a step: what a bundle says is heard as it arrives. */
  function MarkNext(s: State, step: Step, p: int, t: string, listed: bool, mark: Option<Mark>): Option<Mark>
    requires p in s.phones && s.phones[p].link.Some?
    requires step == Arrive(p) ==> s.phones[p].link.value.queue != []
  {
    if step == Arrive(p) then HearOf(mark, listed, t, AllNews(s.phones[p].link.value.queue[0]), s.now) else mark
  }

  ghost function MarkEnd(s: State, steps: seq<Step>, p: int, t: string, listed: bool, mark: Option<Mark>): Option<Mark>
    requires Listening(s, p) && LiveRun(s, steps, p, t)
    decreases steps
  {
    if steps == [] then mark
    else MarkEnd(Next(s, steps[0]), steps[1..], p, t, listed, MarkNext(s, steps[0], p, t, listed, mark))
  }

  // ----- tickets renewed in one batch -----

  predicate Renews(s: State, step: Step, t: string) {
    && step.Send? && Admitted(s.relay, step.ws, step.frame, s.now)
    && (var o := FromPhone(s.relay.room, Sender(step.ws.passId, step.ws.gate), step.frame.raw, s.now);
        Renewed(o.room.rows, Broadcast(o.action), t))
  }

  /** Whether the ticket's latest change was a batch that took it back and left it standing. */
  ghost predicate LostNext(s: State, step: Step, t: string, lost: bool)
    requires Enabled(s, step)
  {
    if Same(s.relay.room.rows, Next(s, step).relay.room.rows, t) then lost else Renews(s, step, t)
  }

  ghost predicate LostEnd(s: State, steps: seq<Step>, t: string, lost: bool)
    requires Valid(s, steps)
    decreases steps
  {
    if steps == [] then lost else LostEnd(Next(s, steps[0]), steps[1..], t, LostNext(s, steps[0], t, lost))
  }

  lemma {:induction false} LiveIsValid(s: State, steps: seq<Step>, p: int, t: string)
    requires Listening(s, p) && LiveRun(s, steps, p, t)
    ensures Valid(s, steps) && Listening(Reached(s, steps), p)
    decreases steps
  {
    if steps != [] {
      LiveIsValid(Next(s, steps[0]), steps[1..], p, t);
    }
  }

  // ----- the invariant -----

  /** With what is on the way, the mark is what is expected of it. */
  ghost predicate Follows(s: State, p: int, t: string, listed: bool, mark: Option<Mark>, lost: bool) {
    && Listening(s, p) && RelayFed(mark)
    && SightQueue(SightOf(mark), listed, t, s.phones[p].link.value.queue) ==
       Expected(s.relay.room.rows, t, listed, lost)
  }

  /** A socket that stays open hears a broadcast unless it is skipped. */
  lemma {:induction false} HearsOrSkipped(socks: seq<Sock>, sock: int, action: Action, sender: Option<int>, now: int)
    requires Open(StillOpen(socks, action, sender, now), sock) && Broadcast(action) != []
    requires sender.Some? ==> Open(socks, sender.value)
    ensures Open(Hearers(socks, action, sender, now), sock) <==> Skipped(action, sender) != Some(sock)
  {
    ActionSentTo(socks, action, sender, now);
    ThoseMembers(socks, Hearing(Skipped(action, sender), now));
    var ws :| ws in StillOpen(socks, action, sender, now) && ws.id == sock;
    assert ws in Hearers(socks, action, sender, now) || Skipped(action, sender) == Some(sock);
  }

  /** A phone whose socket stays open is sent the broadcast, or was its sender. */
  lemma {:induction false} ToldQueue(socks: seq<Sock>, ph: Phone, action: Action, sender: Option<int>, top: int,
                                     now: int)
    requires ph.link.Some? && Open(StillOpen(socks, action, sender, now), ph.link.value.sock)
    requires sender.Some? ==> Open(socks, sender.value)
    ensures var told := Told(ph, Hearers(socks, action, sender, now), Skipped(action, sender), Broadcast(action), top);
            && told.link.Some? && told.link.value.sock == ph.link.value.sock
            && told.link.value.queue == ph.link.value.queue +
               if Broadcast(action) == [] || Skipped(action, sender) == Some(ph.link.value.sock) then []
               else [Broadcast(action)]
  {
    if Broadcast(action) != [] {
      HearsOrSkipped(socks, ph.link.value.sock, action, sender, now);
    }
  }

  lemma {:induction false} SkipsSender(st: RoomState, who: Sender, raw: Raw, now: int)
    ensures var action := FromPhone(st, who, raw, now).action; Broadcast(action) != [] ==> action.skipSender
  {
  }

  /** Another's message: its broadcast joins the queue. */
  lemma {:induction false} HeardFollows(x: Sight, listed: bool, t: string, queue: seq<seq<Message>>, ms: seq<Message>,
                                        rows: map<string, Row>, lost: bool, rows': map<string, Row>, lost': bool)
    requires SightQueue(x, listed, t, queue) == Expected(rows, t, listed, lost)
    requires SightAll(Expected(rows, t, listed, lost), listed, t, AllNews(ms)) == Expected(rows', t, listed, lost')
    ensures SightQueue(x, listed, t, queue + if ms == [] then [] else [ms]) == Expected(rows', t, listed, lost')
  {
    if ms == [] {
      assert queue + [] == queue;
    } else {
      SightQueueMore(x, listed, t, queue, ms);
    }
  }

  lemma {:induction false} SentFollows(s: State, step: Step, p: int, t: string, listed: bool, mark: Option<Mark>,
                                       lost: bool)
    requires Consistent(s) && Follows(s, p, t, listed, mark, lost) && Live(s, step, p, t)
    requires step.Send? && Admitted(s.relay, step.ws, step.frame, s.now)
    ensures Follows(Next(s, step), p, t, listed, mark, LostNext(s, step, t, lost))
  {
    var ws, who, ph := step.ws, Sender(step.ws.passId, step.ws.gate), s.phones[p];
    var o := FromPhone(s.relay.room, who, step.frame.raw, s.now);
    SentQueue(s, step, p);
    if OwnSend(s, step, p) {
      assert ph.link.value.queue + [] == ph.link.value.queue;
    } else {
      PhoneShows(s.relay.room, who, step.frame.raw, s.now, t, listed, lost);
      HeardFollows(SightOf(mark), listed, t, ph.link.value.queue, Broadcast(o.action), s.relay.room.rows, lost,
                   o.room.rows, LostNext(s, step, t, lost));
    }
  }

  lemma {:induction false} SentQueue(s: State, step: Step, p: int)
    requires Listening(s, p) && Enabled(s, step) && Listening(Next(s, step), p)
    requires step.Send? && Admitted(s.relay, step.ws, step.frame, s.now)
    ensures var o := FromPhone(s.relay.room, Sender(step.ws.passId, step.ws.gate), step.frame.raw, s.now);
            && Next(s, step).relay.room == o.room
            && Next(s, step).phones[p].link.value.queue == s.phones[p].link.value.queue +
               if Broadcast(o.action) == [] || OwnSend(s, step, p) then [] else [Broadcast(o.action)]
  {
    var ws, who, ph := step.ws, Sender(step.ws.passId, step.ws.gate), s.phones[p];
    var o := FromPhone(s.relay.room, who, step.frame.raw, s.now);
    SkipsSender(s.relay.room, who, step.frame.raw, s.now);
    var told := Told(ph, Hearers(s.relay.socks, o.action, Some(ws.id), s.now), Skipped(o.action, Some(ws.id)),
                     Broadcast(o.action), o.room.top);
    assert AfterAction(s, o.action, Some(ws.id), o.room.top)[p] == told;
    assert Next(s, step).phones[p].link == told.link;
    assert told.link.value.sock == ph.link.value.sock;
    ToldQueue(s.relay.socks, ph, o.action, Some(ws.id), o.room.top, s.now);
  }

  lemma {:induction false} SaidFollows(s: State, step: Step, p: int, t: string, listed: bool, mark: Option<Mark>,
                                       lost: bool)
    requires Consistent(s) && Follows(s, p, t, listed, mark, lost) && Live(s, step, p, t)
    requires step.Say? && FromServer(s.relay.room, step.body, step.order).Some?
    ensures Follows(Next(s, step), p, t, listed, mark, LostNext(s, step, t, lost))
  {
    var ph := s.phones[p];
    var o := FromServer(s.relay.room, step.body, step.order).value;
    SaidQueue(s, step, p);
    ServerShows(s.relay.room, step.body, step.order, t, listed, lost);
    HeardFollows(SightOf(mark), listed, t, ph.link.value.queue, Broadcast(o.action), s.relay.room.rows, lost,
                 o.room.rows, LostNext(s, step, t, lost));
  }

  lemma {:induction false} SaidQueue(s: State, step: Step, p: int)
    requires Listening(s, p) && Enabled(s, step) && Listening(Next(s, step), p)
    requires step.Say? && FromServer(s.relay.room, step.body, step.order).Some?
    ensures var o := FromServer(s.relay.room, step.body, step.order).value;
            && Next(s, step).relay.room == o.room
            && Next(s, step).phones[p].link.value.queue == s.phones[p].link.value.queue +
               if Broadcast(o.action) == [] then [] else [Broadcast(o.action)]
  {
    var ph := s.phones[p];
    var o := FromServer(s.relay.room, step.body, step.order).value;
    var told := Told(ph, Hearers(s.relay.socks, o.action, None, s.now), Skipped(o.action, None), Broadcast(o.action),
                     o.room.top);
    assert Next(s, step).phones[p] == told;
    assert told.link.value.sock == ph.link.value.sock;
    ToldQueue(s.relay.socks, ph, o.action, None, o.room.top, s.now);
  }

  /** Steps that leave the room's rows and the phone's queue alone. */
  lemma {:induction false} QuietFollows(s: State, step: Step, p: int, t: string, listed: bool, mark: Option<Mark>,
                                        lost: bool)
    requires Follows(s, p, t, listed, mark, lost) && Live(s, step, p, t) && step != Arrive(p)
    requires step.Send? ==> !Admitted(s.relay, step.ws, step.frame, s.now)
    requires step.Say? ==> FromServer(s.relay.room, step.body, step.order).None?
    ensures Follows(Next(s, step), p, t, listed, mark, LostNext(s, step, t, lost))
  {
    var next := Next(s, step);
    assert next.relay.room.rows == s.relay.room.rows && next.phones[p] == s.phones[p];
  }

  lemma {:induction false} ArrivedFollows(s: State, p: int, t: string, listed: bool, mark: Option<Mark>, lost: bool)
    requires Follows(s, p, t, listed, mark, lost) && Live(s, Arrive(p), p, t)
    ensures Follows(Next(s, Arrive(p)), p, t, listed, MarkNext(s, Arrive(p), p, t, listed, mark),
                    LostNext(s, Arrive(p), t, lost))
  {
    SightHears(mark, listed, t, AllNews(s.phones[p].link.value.queue[0]), s.now);
  }

  lemma {:induction false} StepFollows(s: State, step: Step, p: int, t: string, listed: bool, mark: Option<Mark>,
                                       lost: bool)
    requires Consistent(s) && Follows(s, p, t, listed, mark, lost) && Live(s, step, p, t)
    ensures Follows(Next(s, step), p, t, listed, MarkNext(s, step, p, t, listed, mark), LostNext(s, step, t, lost))
  {
    if step == Arrive(p) {
      ArrivedFollows(s, p, t, listed, mark, lost);
    } else if step.Send? && Admitted(s.relay, step.ws, step.frame, s.now) {
      SentFollows(s, step, p, t, listed, mark, lost);
    } else if step.Say? && FromServer(s.relay.room, step.body, step.order).Some? {
      SaidFollows(s, step, p, t, listed, mark, lost);
    } else {
      QuietFollows(s, step, p, t, listed, mark, lost);
    }
  }

  lemma {:induction false} RunFollows(s: State, steps: seq<Step>, p: int, t: string, listed: bool, mark: Option<Mark>,
                                      lost: bool)
    requires Consistent(s) && Follows(s, p, t, listed, mark, lost) && LiveRun(s, steps, p, t)
    ensures Valid(s, steps)
    ensures Follows(Reached(s, steps), p, t, listed, MarkEnd(s, steps, p, t, listed, mark),
                    LostEnd(s, steps, t, lost))
    decreases steps
  {
    LiveIsValid(s, steps, p, t);
    if steps != [] {
      StepConsistent(s, steps[0]);
      StepFollows(s, steps[0], p, t, listed, mark, lost);
      RunFollows(Next(s, steps[0]), steps[1..], p, t, listed, MarkNext(s, steps[0], p, t, listed, mark),
                 LostNext(s, steps[0], t, lost));
    }
  }

  // ----- from the phone's joining -----

  /** The mark a phone comes with is one its catch-up puts right. */
  predicate PutRight(room: RoomState, v: View, t: string, listed: bool, mark: Option<Mark>) {
    && RelayFed(mark)
    && (if TellsOf(room, v.heard, Cursor(v), t)
        then SightAfter(SightOf(mark), listed, RowNews(room.rows[t]).fact) else SightOf(mark)) ==
       RowSight(room.rows, t, listed)
  }

  lemma {:induction false} SightOnce(x: Sight, listed: bool, ns: seq<News>, n: News)
    requires multiset(ns)[n] == 1 && forall m | m in ns && m.ticketId == n.ticketId :: m == n
    ensures SightAll(x, listed, n.ticketId, ns) == SightAfter(x, listed, n.fact)
    decreases ns
  {
    assert n in multiset(ns);
    assert ns == [ns[0]] + ns[1..];
    if ns[0] == n {
      assert n !in multiset(ns[1..]);
      SightUnheard(SightAfter(x, listed, n.fact), listed, n.ticketId, ns[1..]);
    } else {
      assert ns[0] in ns;
      SightOnce(x, listed, ns[1..], n);
    }
  }

  lemma {:induction false} CatchUpShows(room: RoomState, v: View, t: string, listed: bool, x: Sight)
    requires WellFormed(room)
    ensures SightQueue(x, listed, t, CatchUp(room, v)) ==
            if TellsOf(room, v.heard, Cursor(v), t) then SightAfter(x, listed, RowNews(room.rows[t]).fact) else x
  {
    var ns := AllNews(BacklogOf(room, v.heard, Cursor(v)));
    BundlesAreBacklog(room, v.heard, Cursor(v));
    SightQueueIs(x, listed, t, CatchUp(room, v));
    BacklogExact(room, v.heard, Cursor(v));
    if TellsOf(room, v.heard, Cursor(v), t) {
      var n := RowNews(room.rows[t]);
      assert RowOk(t, room.rows[t], room.top);
      assert Missed(room, Start(room, v.heard, Cursor(v)), n);
      SightOnce(x, listed, ns, n);
    } else {
      assert forall n | n in ns :: Missed(room, Start(room, v.heard, Cursor(v)), n);
      SightUnheard(x, listed, t, ns);
    }
  }

  lemma {:induction false} JoinedFollows(s: State, join: Step, t: string, listed: bool, mark: Option<Mark>)
    requires Consistent(s) && Enabled(s, join) && join.Connect? && MayJoin(s.relay, join.passId, join.gate)
    requires PutRight(s.relay.room, s.phones[join.phone].view, t, listed, mark)
    ensures Follows(Next(s, join), join.phone, t, listed, mark, false)
  {
    var socks := Next(s, join).relay.socks;
    assert socks[|socks| - 1] in socks;
    CatchUpShows(s.relay.room, s.phones[join.phone].view, t, listed, SightOf(mark));
  }

  /** A phone without a mark that is told everything from the beginning. */
  lemma {:induction false} NewPhonePutRight(room: RoomState, v: View, t: string, listed: bool)
    requires WellFormed(room) && Start(room, v.heard, Cursor(v)) == 0
    ensures PutRight(room, v, t, listed, None)
  {
    if t in room.rows {
      assert RowOk(t, room.rows[t], room.top);
    }
  }

  /**
   * Over every run: from its joining on, as long as a phone listens and does not itself change the ticket, its mark is
   * the room's row once what is on the way has arrived: set exactly when the ticket is listed and stands, with the
   * row's time and confirmation. It is not so exactly for a standing ticket whose latest change was a batch that took
   * it back and claimed it again; that ticket stays unmarked until it changes once more.
   */
  lemma {:induction false} MarkFollowsIff(s: State, before: seq<Step>, join: Step, steps: seq<Step>, t: string,
                                          listed: bool, mark: Option<Mark>)
    requires Init(s) && Valid(s, before)
    requires var m := Reached(s, before);
             && Enabled(m, join) && join.Connect? && MayJoin(m.relay, join.passId, join.gate)
             && PutRight(m.relay.room, m.phones[join.phone].view, t, listed, mark)
    requires var j := Next(Reached(s, before), join); Listening(j, join.phone) ==> LiveRun(j, steps, join.phone, t)
    ensures var p, j := join.phone, Next(Reached(s, before), join);
            && Listening(j, p) && Valid(j, steps)
            && (var e := Reached(j, steps);
                var rows, end := e.relay.room.rows, MarkEnd(j, steps, p, t, listed, mark);
                var lost := LostEnd(j, steps, t, false);
                && Listening(e, p)
                && (e.phones[p].link.value.queue == [] ==>
                      && (end.Some? <==> listed && Standing(rows, t) && !lost)
                      && (end.Some? ==>
                            end.value.at == rows[t].atMs && (end.value.knownSince.Some? <==> rows[t].confirmed))))
  {
    var m := Reached(s, before);
    var j, p := Next(m, join), join.phone;
    RunConsistent(s, before);
    JoinedFollows(m, join, t, listed, mark);
    StepConsistent(m, join);
    RunFollows(j, steps, p, t, listed, mark, false);
    var e, end := Reached(j, steps), MarkEnd(j, steps, p, t, listed, mark);
    if e.phones[p].link.value.queue == [] {
      assert SightOf(end) == Expected(e.relay.room.rows, t, listed, LostEnd(j, steps, t, false));
    }
  }
}
