/** What each socket is given (relay/src/index.ts): the whole broadcast in order, or nothing. */
module Delivery {
  import opened Common
  import opened RelayTypes
  import opened RoomRules
  import opened RoomTheorems
  import opened EventRules
  import opened System
  import opened Convergence
  import opened Sockets

  /** One message given to one socket. */
  datatype Sent = Sent(sock: int, message: Message)

  function ToAll(hearers: seq<Sock>, m: Message): seq<Sent> {
    if hearers == [] then [] else [Sent(hearers[0].id, m)] + ToAll(hearers[1..], m)
  }

  /** Each message to every hearer, message by message. */
  function Deliveries(hearers: seq<Sock>, ms: seq<Message>): seq<Sent> {
    if ms == [] then [] else ToAll(hearers, ms[0]) + Deliveries(hearers, ms[1..])
  }

  // ----- what one socket gets -----

  function GivenTo(sent: seq<Sent>, sock: int): seq<Message> {
    if sent == [] then []
    else (if sent[0].sock == sock then [sent[0].message] else []) + GivenTo(sent[1..], sock)
  }

  /** The socket is open, its pass unexpired, and it is not the one skipped. */
  ghost predicate Hears(socks: seq<Sock>, sock: int, skip: Option<int>, now: int) {
    skip != Some(sock) && exists ws :: ws in socks && ws.id == sock && now < ws.exp * 1000
  }

  /** Every socket that hears is given all the messages, in order, each once; no other is given any. */
  ghost predicate Given(socks: seq<Sock>, sent: seq<Sent>, ms: seq<Message>, skip: Option<int>, now: int) {
    forall sock :: GivenTo(sent, sock) == if Hears(socks, sock, skip, now) then ms else []
  }

  lemma {:induction false} GivenAppend(a: seq<Sent>, b: seq<Sent>, sock: int)
    ensures GivenTo(a + b, sock) == GivenTo(a, sock) + GivenTo(b, sock)
  {
    if a == [] {
      assert a + b == b;
    } else {
      assert (a + b)[1..] == a[1..] + b && (a + b)[0] == a[0];
      GivenAppend(a[1..], b, sock);
      var first := if a[0].sock == sock then [a[0].message] else [];
      assert GivenTo(a + b, sock) == first + (GivenTo(a[1..], sock) + GivenTo(b, sock));
      assert GivenTo(a, sock) == first + GivenTo(a[1..], sock);
    }
  }

  lemma {:induction false} OneToAll(hearers: seq<Sock>, m: Message, sock: int)
    requires InIdOrder(hearers)
    ensures GivenTo(ToAll(hearers, m), sock) == if Open(hearers, sock) then [m] else []
  {
    if hearers != [] {
      var rest := ToAll(hearers[1..], m);
      OneToAll(hearers[1..], m, sock);
      assert ToAll(hearers, m)[1..] == rest;
      assert forall ws :: ws in hearers <==> ws == hearers[0] || ws in hearers[1..];
      assert forall ws | ws in hearers[1..] :: ws.id != hearers[0].id;
    }
  }

  lemma {:induction false} AllToAll(hearers: seq<Sock>, ms: seq<Message>, sock: int)
    requires InIdOrder(hearers)
    ensures GivenTo(Deliveries(hearers, ms), sock) == if Open(hearers, sock) then ms else []
  {
    if ms != [] {
      OneToAll(hearers, ms[0], sock);
      AllToAll(hearers, ms[1..], sock);
      GivenAppend(ToAll(hearers, ms[0]), Deliveries(hearers, ms[1..]), sock);
    }
  }

  lemma {:induction false} HearersHear(socks: seq<Sock>, skip: Option<int>, now: int, sock: int)
    ensures Open(Those(socks, Hearing(skip, now)), sock) <==> Hears(socks, sock, skip, now)
  {
    ThoseMembers(socks, Hearing(skip, now));
  }

  /** A broadcast is given to exactly those who hear it. */
  lemma {:induction false} BroadcastGiven(socks: seq<Sock>, ms: seq<Message>, skip: Option<int>, now: int)
    requires InIdOrder(socks)
    ensures Given(socks, Deliveries(Those(socks, Hearing(skip, now)), ms), ms, skip, now)
  {
    ThoseInOrder(socks, Hearing(skip, now));
    forall sock
      ensures GivenTo(Deliveries(Those(socks, Hearing(skip, now)), ms), sock) ==
              if Hears(socks, sock, skip, now) then ms else []
    {
      AllToAll(Those(socks, Hearing(skip, now)), ms, sock);
      HearersHear(socks, skip, now, sock);
    }
  }

  /** The socket an action skips. */
  function SkippedSock(action: Action, sender: Option<int>): Option<int> {
    if action.Ok? && action.skipSender then sender else None
  }

  lemma {:induction false} ActionGiven(socks: seq<Sock>, action: Action, sender: Option<int>, now: int)
    requires InIdOrder(socks)
    ensures Given(socks, Deliveries(Hearers(socks, action, sender, now), Broadcast(action)), Broadcast(action),
                  SkippedSock(action, sender), now)
  {
    if Broadcast(action) == [] {
      NothingGiven(socks, SkippedSock(action, sender), now);
      assert Deliveries(Hearers(socks, action, sender, now), []) == [];
    } else {
      BroadcastGiven(socks, Broadcast(action), Skipped(action, sender), now);
    }
  }

  /** A phone's message: all but its own socket are given what it tells. */
  lemma {:induction false} MessageGiven(socks: seq<Sock>, st: RoomState, who: Sender, raw: Raw, sender: int, now: int,
                                        sent: seq<Sent>)
    requires var action := FromPhone(st, who, raw, now).action;
             Given(socks, sent, Broadcast(action), SkippedSock(action, Some(sender)), now)
    ensures Given(socks, sent, Broadcast(FromPhone(st, who, raw, now).action), Some(sender), now)
  {
    PhoneActions(st, who, raw, now);
  }

  lemma {:induction false} NothingGiven(socks: seq<Sock>, skip: Option<int>, now: int)
    ensures Given(socks, [], [], skip, now)
  {
  }

  // ----- what is on the way to a phone is what its socket was given -----

  /** One bundle more, unless it is empty. */
  function More(queue: seq<seq<Message>>, given: seq<Message>): seq<seq<Message>> {
    queue + if given == [] then [] else [given]
  }

  lemma {:induction false} ToldIsGiven(socks: seq<Sock>, ph: Phone, action: Action, sender: Option<int>, top: int,
                                       now: int, sent: seq<Sent>)
    requires ph.link.Some? && Given(socks, sent, Broadcast(action), SkippedSock(action, sender), now)
    ensures var told := Told(ph, Hearers(socks, action, sender, now), Skipped(action, sender), Broadcast(action), top);
            && told.link.Some? && told.link.value.sock == ph.link.value.sock
            && told.link.value.queue == More(ph.link.value.queue, GivenTo(sent, ph.link.value.sock))
  {
    var sock := ph.link.value.sock;
    HearersHear(socks, Skipped(action, sender), now, sock);
    assert GivenTo(sent, sock) ==
           if Hears(socks, sock, SkippedSock(action, sender), now) then Broadcast(action) else [];
    assert Broadcast(action) != [] ==> Hearers(socks, action, sender, now) ==
                                       Those(socks, Hearing(Skipped(action, sender), now));
    assert ph.link.value.queue + [] == ph.link.value.queue;
  }

  /** A frame that reaches the room: whatever the sockets were given is on the way to the phones at their other ends. */
  lemma {:induction false} SendQueues(s: State, step: Step, sent: seq<Sent>, p: int)
    requires Enabled(s, step) && step.Send? && Admitted(s.relay, step.ws, step.frame, s.now)
    requires var action := FromPhone(s.relay.room, Sender(step.ws.passId, step.ws.gate), step.frame.raw, s.now).action;
             Given(s.relay.socks, sent, Broadcast(action), SkippedSock(action, Some(step.ws.id)), s.now)
    requires p in s.phones && s.phones[p].link.Some?
    ensures var link, next := s.phones[p].link.value, Next(s, step).phones[p].link;
            next.Some? && next.value.sock == link.sock && next.value.queue == More(link.queue, GivenTo(sent, link.sock))
  {
    var ws, ph := step.ws, s.phones[p];
    var o := FromPhone(s.relay.room, Sender(ws.passId, ws.gate), step.frame.raw, s.now);
    ToldIsGiven(s.relay.socks, ph, o.action, Some(ws.id), o.room.top, s.now, sent);
    var told := Told(ph, Hearers(s.relay.socks, o.action, Some(ws.id), s.now), Skipped(o.action, Some(ws.id)),
                     Broadcast(o.action), o.room.top);
    assert AfterAction(s, o.action, Some(ws.id), o.room.top)[p] == told;
    assert Next(s, step).phones[p].link == told.link;
  }

  /** The server's announcements likewise. */
  lemma {:induction false} SayQueues(s: State, step: Step, sent: seq<Sent>, p: int)
    requires Enabled(s, step) && step.Say? && FromServer(s.relay.room, step.body, step.order).Some?
    requires var action := FromServer(s.relay.room, step.body, step.order).value.action;
             Given(s.relay.socks, sent, Broadcast(action), None, s.now)
    requires p in s.phones && s.phones[p].link.Some?
    ensures var link, next := s.phones[p].link.value, Next(s, step).phones[p].link;
            next.Some? && next.value.sock == link.sock && next.value.queue == More(link.queue, GivenTo(sent, link.sock))
  {
    var o := FromServer(s.relay.room, step.body, step.order).value;
    ToldIsGiven(s.relay.socks, s.phones[p], o.action, None, o.room.top, s.now, sent);
    assert Next(s, step).phones[p] ==
           Told(s.phones[p], Hearers(s.relay.socks, o.action, None, s.now), Skipped(o.action, None),
                Broadcast(o.action), o.room.top);
  }
}
