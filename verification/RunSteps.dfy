/**
 * Each kind of step keeps the system consistent: the room stays sane, sockets are named once and within their cap, and
 * every phone knows, or is about to be told, what it should.
 *
 * Phone by phone when the room changes, then step by step.
 */
module RunSteps {
  import opened Common
  import opened RelayTypes
  import opened RoomRules
  import opened Replica
  import opened RoomProofs
  import opened RoomTheorems
  import opened EventRules
  import opened PhoneRules
  import opened System
  import opened Convergence
  import opened CatchingUp

  // ----- broadcasts carry no hello -----

  lemma {:induction false} BatchNoHello(done: Progress, who: Sender, items: seq<Item>, now: int)
    requires NoHello(done.broadcast)
    ensures NoHello(Batch(done, who, items, now).broadcast)
    decreases items
  {
    if items != [] {
      BatchNoHello(Advance(done, OneItem(done.room, who, items[0], now)), who, items[1..], now);
    }
  }

  lemma {:induction false} RestNoHello(ms: seq<Message>)
    requires NoHello(ms)
    ensures NoHello(NotRows(ms))
  {
    if ms != [] {
      assert ms[0] in ms;
      RestNoHello(ms[1..]);
    }
  }

  lemma {:induction false} PhoneNoHello(st: RoomState, who: Sender, raw: Raw, now: int)
    ensures NoHello(Broadcast(FromPhone(st, who, raw, now).action))
  {
    if raw.json.PhoneObject? && raw.json.t == Str("claims") && raw.json.items.Some? {
      BatchNoHello(Progress(st, [], None), who, raw.json.items.value, now);
      RestNoHello(Batch(Progress(st, [], None), who, raw.json.items.value, now).broadcast);
    }
  }

  lemma {:induction false} TakeBackNoHello(done: Progress, order: seq<Row>)
    requires NoHello(done.broadcast)
    ensures NoHello(TakeBack(done, order).broadcast)
    decreases order
  {
    if order != [] {
      var tomb := Tombstone(done.room, order[0]);
      TakeBackNoHello(Progress(Put(done.room, tomb), done.broadcast + [UndoMessage(tomb)], None), order[1..]);
    }
  }

  lemma {:induction false} ServerNoHello(st: RoomState, body: ServerBody, order: seq<Row>)
    ensures FromServer(st, body, order).Some? ==> NoHello(Broadcast(FromServer(st, body, order).value.action))
  {
    if IsRevoke(body) {
      TakeBackNoHello(Progress(st.(revoked := st.revoked + {body.passId.s}), [], None), order);
    }
  }

  // ----- one phone, when the room changes -----

  /** The sockets open after a broadcast were open, and heard it or were skipped. */
  ghost predicate SentTo(socks: seq<Sock>, after: seq<Sock>, hearers: seq<Sock>, skip: Option<int>, ms: seq<Message>) {
    && (forall ws | ws in hearers :: ws in socks)
    && (skip.Some? ==> Open(socks, skip.value))
    && (forall ws | ws in after :: ws in socks && (ms == [] || ws in hearers || skip == Some(ws.id)))
  }

  lemma {:induction false} UntoldOk(a: RoomState, b: RoomState, socks: seq<Sock>, epochs: set<string>, ph: Phone,
                                     own: set<int>)
    requires WellFormed(a) && Grew(a, b) && ph.own <= own
    requires PhoneOk(a, socks, epochs, ph)
    requires ph.link.Some? ==> Open(socks, ph.link.value.sock) ==> b.top == a.top
    ensures PhoneOk(b, socks, epochs, ph.(own := own))
  {
    KnowsStays(a, b, ph.own, own, ph.view);
    if ph.link.Some? {
      var link := ph.link.value;
      var v := Settled(ph.view, link.queue);
      KnowsStays(a, b, ph.own, own, v);
      UntoldStays(a, b, ph.own, own, v, Rest(link.queue), link.upto);
    }
  }

  lemma {:induction false} FewerOpen(room: RoomState, socks: seq<Sock>, after: seq<Sock>, epochs: set<string>,
                                      ph: Phone)
    requires PhoneOk(room, socks, epochs, ph)
    requires ph.link.Some? && Open(after, ph.link.value.sock) ==> Open(socks, ph.link.value.sock)
    ensures PhoneOk(room, after, epochs, ph)
  {
  }

  lemma {:induction false} QueueMore(v: View, queue: seq<seq<Message>>, ms: seq<Message>)
    requires NoHello(ms)
    ensures Settled(v, queue + [ms]) == Settled(v, queue) && Rest(queue + [ms]) == Rest(queue) + [ms]
  {
    if queue == [] {
      assert queue + [ms] == [ms];
    } else {
      assert (queue + [ms])[0] == queue[0];
      assert (queue + [ms])[1..] == queue[1..] + [ms];
    }
  }

  /** The phone's link hears the broadcast. */
  lemma {:induction false} HearerOk(a: RoomState, b: RoomState, socks: seq<Sock>, epochs: set<string>, ph: Phone,
                                     own: set<int>, ms: seq<Message>)
    requires WellFormed(a) && WellFormed(b) && AnnouncedOnce(a, b, ms) && NoHello(ms) && ph.own <= own
    requires PhoneOk(a, socks, epochs, ph) && ph.link.Some? && Open(socks, ph.link.value.sock)
    ensures var link := ph.link.value;
            PhoneOk(b, socks, epochs,
                    ph.(own := own, link := Some(link.(queue := link.queue + [ms], upto := b.top))))
  {
    var link := ph.link.value;
    var v := Settled(ph.view, link.queue);
    KnowsStays(a, b, ph.own, own, ph.view);
    KnowsStays(a, b, ph.own, own, v);
    QueueMore(ph.view, link.queue, ms);
    if v.epoch == a.epoch {
      HearerStays(a, b, ms, ph.own, own, v, Rest(link.queue));
    } else {
      NoHelloMore(Rest(link.queue), ms);
    }
  }

  /** The phone's link sent the message: the room skips it. */
  lemma {:induction false} SenderOk(a: RoomState, b: RoomState, socks: seq<Sock>, epochs: set<string>, ph: Phone,
                                     own: set<int>, ms: seq<Message>)
    requires WellFormed(a) && WellFormed(b) && AnnouncedOnce(a, b, ms) && ph.own <= own
    requires forall n | n in AllNews(ms) :: n.fact.seqNo in own
    requires PhoneOk(a, socks, epochs, ph) && ph.link.Some? && Open(socks, ph.link.value.sock)
    ensures PhoneOk(b, socks, epochs, ph.(own := own, link := Some(ph.link.value.(upto := b.top))))
  {
    var link := ph.link.value;
    var v := Settled(ph.view, link.queue);
    KnowsStays(a, b, ph.own, own, ph.view);
    KnowsStays(a, b, ph.own, own, v);
    if v.epoch == a.epoch {
      OwnStays(a, b, ms, ph.own, own, v, Rest(link.queue));
    }
  }

  lemma {:induction false} ToldOk(a: RoomState, b: RoomState, socks: seq<Sock>, after: seq<Sock>, epochs: set<string>,
                                   ph: Phone, own: set<int>, hearers: seq<Sock>, skip: Option<int>, ms: seq<Message>)
    requires WellFormed(a) && WellFormed(b) && AnnouncedOnce(a, b, ms) && NoHello(ms)
    requires PhoneOk(a, socks, epochs, ph) && SentTo(socks, after, hearers, skip, ms) && ph.own <= own
    requires ph.link.Some? && skip == Some(ph.link.value.sock) ==> forall n | n in AllNews(ms) :: n.fact.seqNo in own
    ensures PhoneOk(b, after, epochs, Told(ph, hearers, skip, ms, b.top).(own := own))
  {
    if ms == [] {
      UntoldOk(a, b, socks, epochs, ph, own);
      FewerOpen(b, socks, after, epochs, ph.(own := own));
    } else if ph.link.None? {
      UntoldOk(a, b, socks, epochs, ph, own);
    } else if Open(hearers, ph.link.value.sock) {
      HearerOk(a, b, socks, epochs, ph, own, ms);
      var link := ph.link.value;
      FewerOpen(b, socks, after, epochs,
                ph.(own := own, link := Some(link.(queue := link.queue + [ms], upto := b.top))));
    } else if skip == Some(ph.link.value.sock) {
      SenderOk(a, b, socks, epochs, ph, own, ms);
      FewerOpen(b, socks, after, epochs, ph.(own := own, link := Some(ph.link.value.(upto := b.top))));
    } else {
      FewerOpen(a, socks, after, epochs, ph);
      UntoldOk(a, b, after, epochs, ph, own);
    }
  }

  /** A room under a new epoch: nobody knows anything of it yet. */
  lemma {:induction false} ForgottenOk(a: RoomState, b: RoomState, socks: seq<Sock>, after: seq<Sock>,
                                        epochs: set<string>, ph: Phone)
    requires PhoneOk(a, socks, epochs, ph) && b.epoch !in epochs && b.epoch != ""
    ensures PhoneOk(b, after, epochs + {b.epoch}, ph.(own := {}))
  {
  }

  // ----- the whole system -----

  /** Socket names are used once, and a phone's link is a socket it opened. */
  ghost predicate Named(s: State) {
    && (forall ws | ws in s.relay.socks :: ws.id < s.relay.next)
    && (forall p | p in s.phones && s.phones[p].link.Some? ::
          var sock := s.phones[p].link.value.sock;
          sock < s.relay.next && sock in s.owner && s.owner[sock] == p)
  }

  ghost predicate PhonesOk(room: RoomState, socks: seq<Sock>, epochs: set<string>, phones: map<int, Phone>) {
    forall p | p in phones :: PhoneOk(room, socks, epochs, phones[p])
  }

  ghost predicate Consistent(s: State) {
    && Sane(s.relay.room)
    && SocketsWithinCap(s.relay.socks)
    && s.relay.room.epoch in s.epochs && "" !in s.epochs
    && Named(s)
    && PhonesOk(s.relay.room, s.relay.socks, s.epochs, s.phones)
  }

  lemma {:induction false} JoinedOk(s: State, step: Step)
    requires Consistent(s) && Enabled(s, step) && step.Connect? && MayJoin(s.relay, step.passId, step.gate)
    ensures var t := Next(s, step); PhonesOk(t.relay.room, t.relay.socks, t.epochs, t.phones)
  {
    var t := Next(s, step);
    var ph := s.phones[step.phone];
    CatchUpOnTheWay(s.relay.room, ph.own, ph.view);
    var k := CountOf(s.relay.socks, step.passId) - SOCKETS_PER_PASS + 1;
    WithoutOldestMembers(s.relay.socks, step.passId, k);
    forall p | p in t.phones
      ensures PhoneOk(t.relay.room, t.relay.socks, t.epochs, t.phones[p])
    {
      if p != step.phone {
        FewerOpen(s.relay.room, s.relay.socks, t.relay.socks, s.epochs, s.phones[p]);
      }
    }
  }

  lemma {:induction false} ConnectConsistent(s: State, step: Step)
    requires Consistent(s) && Enabled(s, step) && step.Connect?
    ensures Consistent(Next(s, step))
  {
    if MayJoin(s.relay, step.passId, step.gate) {
      JoinedOk(s, step);
      JoinWithinCap(s.relay, step.passId, step.gate, step.exp);
      WithoutOldestMembers(s.relay.socks, step.passId, CountOf(s.relay.socks, step.passId) - SOCKETS_PER_PASS + 1);
    }
  }

  /** An action's broadcast reaches every socket that stays open, but the one it skips. */
  lemma {:induction false} ActionSentTo(socks: seq<Sock>, action: Action, sender: Option<int>, now: int)
    requires sender.Some? ==> Open(socks, sender.value)
    ensures SentTo(socks, StillOpen(socks, action, sender, now), Hearers(socks, action, sender, now),
                   Skipped(action, sender), Broadcast(action))
  {
    ThoseMembers(socks, Hearing(Skipped(action, sender), now));
    match action
    case Reject(_) =>
      if sender.Some? {
        ThoseMembers(socks, ButId(sender.value));
      }
    case Ok(broadcast, _, closePass, _, _) =>
      var heard := if broadcast == [] then socks else Those(socks, Spared(Skipped(action, sender), now));
      ThoseMembers(socks, Spared(Skipped(action, sender), now));
      if closePass.Some? {
        ThoseMembers(heard, ButPass(closePass.value));
      }
  }

  lemma {:induction false} AfterActionOk(s: State, room: RoomState, action: Action, sender: Option<int>,
                                          writer: Option<int>)
    requires Consistent(s) && Sane(room)
    requires AnnouncedOnce(s.relay.room, room, Broadcast(action)) && NoHello(Broadcast(action))
    requires sender.Some? ==> Open(s.relay.socks, sender.value)
    requires forall p | p in s.phones && s.phones[p].link.Some? && sender == Some(s.phones[p].link.value.sock) ::
               writer == Some(p)
    ensures var phones := AfterAction(s, action, sender, room.top);
            var wrote := if writer.Some? && writer.value in phones
                         then phones[writer.value := Wrote(phones[writer.value], Broadcast(action))] else phones;
            PhonesOk(room, StillOpen(s.relay.socks, action, sender, s.now), s.epochs, wrote)
  {
    forall p | p in s.phones
      ensures var told := Told(s.phones[p], Hearers(s.relay.socks, action, sender, s.now), Skipped(action, sender),
                               Broadcast(action), room.top);
              PhoneOk(room, StillOpen(s.relay.socks, action, sender, s.now), s.epochs,
                      if writer == Some(p) then Wrote(told, Broadcast(action)) else told)
    {
      OnePhoneOk(s, room, action, sender, writer, p);
    }
  }

  lemma {:induction false} OnePhoneOk(s: State, room: RoomState, action: Action, sender: Option<int>,
                                       writer: Option<int>, p: int)
    requires Consistent(s) && Sane(room)
    requires AnnouncedOnce(s.relay.room, room, Broadcast(action)) && NoHello(Broadcast(action))
    requires sender.Some? ==> Open(s.relay.socks, sender.value)
    requires p in s.phones
    requires s.phones[p].link.Some? && sender == Some(s.phones[p].link.value.sock) ==> writer == Some(p)
    ensures var told := Told(s.phones[p], Hearers(s.relay.socks, action, sender, s.now), Skipped(action, sender),
                             Broadcast(action), room.top);
            PhoneOk(room, StillOpen(s.relay.socks, action, sender, s.now), s.epochs,
                    if writer == Some(p) then Wrote(told, Broadcast(action)) else told)
  {
    ActionSentTo(s.relay.socks, action, sender, s.now);
    MaybeWriterOk(s.relay.room, room, s.relay.socks, StillOpen(s.relay.socks, action, sender, s.now), s.epochs,
                  s.phones[p], writer == Some(p), Hearers(s.relay.socks, action, sender, s.now),
                  Skipped(action, sender), Broadcast(action));
  }

  lemma {:induction false} MaybeWriterOk(a: RoomState, b: RoomState, socks: seq<Sock>, after: seq<Sock>,
                                          epochs: set<string>, ph: Phone, wrote: bool, hearers: seq<Sock>,
                                          skip: Option<int>, ms: seq<Message>)
    requires WellFormed(a) && WellFormed(b) && AnnouncedOnce(a, b, ms) && NoHello(ms)
    requires PhoneOk(a, socks, epochs, ph) && SentTo(socks, after, hearers, skip, ms)
    requires ph.link.Some? && skip == Some(ph.link.value.sock) ==> wrote
    ensures var told := Told(ph, hearers, skip, ms, b.top);
            PhoneOk(b, after, epochs, if wrote then Wrote(told, ms) else told)
  {
    var told := Told(ph, hearers, skip, ms, b.top);
    if wrote {
      ToldOk(a, b, socks, after, epochs, ph, Wrote(told, ms).own, hearers, skip, ms);
      assert Wrote(told, ms) == told.(own := Wrote(told, ms).own);
    } else {
      ToldOk(a, b, socks, after, epochs, ph, ph.own, hearers, skip, ms);
      assert told == told.(own := ph.own);
    }
  }

  lemma {:induction false} FewerOk(room: RoomState, socks: seq<Sock>, after: seq<Sock>, epochs: set<string>,
                                    phones: map<int, Phone>)
    requires PhonesOk(room, socks, epochs, phones) && forall ws | ws in after :: ws in socks
    ensures PhonesOk(room, after, epochs, phones)
  {
    forall p | p in phones
      ensures PhoneOk(room, after, epochs, phones[p])
    {
      FewerOpen(room, socks, after, epochs, phones[p]);
    }
  }

  lemma {:induction false} StillOpenWereOpen(socks: seq<Sock>, action: Action, sender: Option<int>, now: int)
    ensures forall ws | ws in StillOpen(socks, action, sender, now) :: ws in socks
  {
    if sender.Some? {
      ThoseMembers(socks, ButId(sender.value));
    }
    ThoseMembers(socks, Spared(Skipped(action, sender), now));
    if action.Ok? && action.closePass.Some? {
      ThoseMembers(socks, ButPass(action.closePass.value));
      ThoseMembers(Those(socks, Spared(Skipped(action, sender), now)), ButPass(action.closePass.value));
    }
  }

  lemma {:induction false} RefusedConsistent(s: State, step: Step)
    requires Consistent(s) && Enabled(s, step) && step.Send? && !Admitted(s.relay, step.ws, step.frame, s.now)
    ensures Consistent(Next(s, step))
  {
    ThoseMembers(s.relay.socks, ButId(step.ws.id));
    FewerOk(s.relay.room, s.relay.socks, Those(s.relay.socks, ButId(step.ws.id)), s.epochs, s.phones);
    FewerWithinCap(s.relay.socks, ButId(step.ws.id));
  }

  /** Broadcasting renames no socket and no link. */
  lemma {:induction false} AfterActionNamed(s: State, t: State, action: Action, sender: Option<int>, top: int)
    requires Named(s)
    requires t.relay.next == s.relay.next && t.owner == s.owner && t.phones.Keys == s.phones.Keys
    requires forall ws | ws in t.relay.socks :: ws in s.relay.socks
    requires forall p | p in s.phones :: t.phones[p].link == AfterAction(s, action, sender, top)[p].link
    ensures Named(t)
  {
    forall p | p in t.phones && t.phones[p].link.Some?
      ensures s.phones[p].link.Some? && s.phones[p].link.value.sock == t.phones[p].link.value.sock
    {
      assert AfterAction(s, action, sender, top)[p].link == t.phones[p].link;
    }
  }

  lemma {:induction false} SentPhonesOk(s: State, step: Step)
    requires Consistent(s) && Enabled(s, step) && step.Send? && Admitted(s.relay, step.ws, step.frame, s.now)
    ensures var t := Next(s, step); PhonesOk(t.relay.room, t.relay.socks, t.epochs, t.phones)
  {
    var ws, who := step.ws, Sender(step.ws.passId, step.ws.gate);
    var o := FromPhone(s.relay.room, who, step.frame.raw, s.now);
    FromPhoneAnnouncedOnce(s.relay.room, who, step.frame.raw, s.now);
    PhoneNoHello(s.relay.room, who, step.frame.raw, s.now);
    AfterActionOk(s, o.room, o.action, Some(ws.id), if ws.id in s.owner then Some(s.owner[ws.id]) else None);
  }

  lemma {:induction false} SentConsistent(s: State, step: Step)
    requires Consistent(s) && Enabled(s, step) && step.Send? && Admitted(s.relay, step.ws, step.frame, s.now)
    ensures Consistent(Next(s, step))
  {
    var ws, who, t := step.ws, Sender(step.ws.passId, step.ws.gate), Next(s, step);
    var o := FromPhone(s.relay.room, who, step.frame.raw, s.now);
    assert Sane(t.relay.room) && t.relay.room.epoch == s.relay.room.epoch by {
      FromPhoneAnnouncedOnce(s.relay.room, who, step.frame.raw, s.now);
    }
    SentPhonesOk(s, step);
    StillOpenWithinCap(s.relay.socks, o.action, Some(ws.id), s.now);
    StillOpenWereOpen(s.relay.socks, o.action, Some(ws.id), s.now);
    AfterActionNamed(s, t, o.action, Some(ws.id), o.room.top);
  }

  lemma {:induction false} SaidPhonesOk(s: State, step: Step)
    requires Consistent(s) && Enabled(s, step) && step.Say?
    requires FromServer(s.relay.room, step.body, step.order).Some?
    ensures var t := Next(s, step); PhonesOk(t.relay.room, t.relay.socks, t.epochs, t.phones)
  {
    var o := FromServer(s.relay.room, step.body, step.order);
    FromServerAnnouncedOnce(s.relay.room, step.body, step.order);
    ServerNoHello(s.relay.room, step.body, step.order);
    AfterActionOk(s, o.value.room, o.value.action, None, None);
  }

  lemma {:induction false} SayConsistent(s: State, step: Step)
    requires Consistent(s) && Enabled(s, step) && step.Say?
    ensures Consistent(Next(s, step))
  {
    var o, t := FromServer(s.relay.room, step.body, step.order), Next(s, step);
    if o.Some? {
      assert Sane(t.relay.room) && t.relay.room.epoch == s.relay.room.epoch by {
        FromServerAnnouncedOnce(s.relay.room, step.body, step.order);
      }
      SaidPhonesOk(s, step);
      StillOpenWithinCap(s.relay.socks, o.value.action, None, s.now);
      StillOpenWereOpen(s.relay.socks, o.value.action, None, s.now);
      AfterActionNamed(s, t, o.value.action, None, o.value.room.top);
    }
  }

  lemma {:induction false} ForgottenAllOk(s: State, room: RoomState, after: seq<Sock>)
    requires Consistent(s) && room.epoch !in s.epochs && room.epoch != ""
    ensures PhonesOk(room, after, s.epochs + {room.epoch}, Forgotten(s.phones))
  {
    forall p | p in s.phones
      ensures PhoneOk(room, after, s.epochs + {room.epoch}, s.phones[p].(own := {}))
    {
      ForgottenOk(s.relay.room, room, s.relay.socks, after, s.epochs, s.phones[p]);
    }
  }

  lemma {:induction false} AlarmConsistent(s: State, step: Step)
    requires Consistent(s) && Enabled(s, step) && step.Alarm?
    ensures Consistent(Next(s, step))
  {
    ThoseMembers(s.relay.socks, Unexpired(s.now));
    FewerWithinCap(s.relay.socks, Unexpired(s.now));
    if Wipes(s.relay, s.now) {
      NewRoomSane(step.epoch, {});
      ForgottenAllOk(s, RoomState(map[], 0, step.epoch, {}), []);
    } else {
      FewerOk(s.relay.room, s.relay.socks, Those(s.relay.socks, Unexpired(s.now)), s.epochs, s.phones);
    }
  }

  lemma {:induction false} UpgradeConsistent(s: State, step: Step)
    requires Consistent(s) && Enabled(s, step) && step.Upgrade?
    ensures Consistent(Next(s, step))
  {
    NewRoomSane(step.epoch, s.relay.room.revoked);
    ForgottenAllOk(s, RoomState(map[], 0, step.epoch, s.relay.room.revoked), s.relay.socks);
  }

  lemma {:induction false} GoneConsistent(s: State, step: Step)
    requires Consistent(s) && Enabled(s, step) && step.Gone?
    ensures Consistent(Next(s, step))
  {
    ThoseMembers(s.relay.socks, ButId(step.sock));
    FewerOk(s.relay.room, s.relay.socks, Those(s.relay.socks, ButId(step.sock)), s.epochs, s.phones);
    FewerWithinCap(s.relay.socks, ButId(step.sock));
  }

  lemma {:induction false} ArriveConsistent(s: State, step: Step)
    requires Consistent(s) && Enabled(s, step) && step.Arrive?
    ensures Consistent(Next(s, step))
  {
    ArrivalOk(s.relay.room, s.relay.socks, s.epochs, s.phones[step.phone]);
  }
}
