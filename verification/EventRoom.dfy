/** The Durable Object itself (relay/src/index.ts): sockets, rate windows and the alarm, changed in place. */
module EventRoom {
  import opened Common
  import opened RelayTypes
  import Rules = EventRules
  import RoomRules
  import opened RoomProofs
  import opened RoomTheorems
  import opened Backlog
  import opened Room
  import opened Delivery
  import opened Sockets

  lemma {:induction false} StepThose(socks: seq<Rules.Sock>, k: Rules.Keep, i: nat)
    requires i < |socks|
    ensures Rules.Those(socks[i..], k) ==
            (if Rules.Kept(k, socks[i]) then [socks[i]] else []) + Rules.Those(socks[i + 1..], k)
  {
    assert socks[i..][1..] == socks[i + 1..];
  }

  lemma {:induction false} StepToAll(socks: seq<Rules.Sock>, k: Rules.Keep, i: nat, m: Message)
    requires i < |socks|
    ensures ToAll(Rules.Those(socks[i..], k), m) ==
            (if Rules.Kept(k, socks[i]) then [Sent(socks[i].id, m)] else []) + ToAll(Rules.Those(socks[i + 1..], k), m)
  {
    StepThose(socks, k, i);
    var rest := Rules.Those(socks[i + 1..], k);
    assert ([socks[i]] + rest)[1..] == rest;
    if !Rules.Kept(k, socks[i]) {
      assert Rules.Those(socks[i..], k) == rest;
    }
  }

  lemma {:induction false} ThosePrepend(s: Rules.Sock, rest: seq<Rules.Sock>, k: Rules.Keep)
    ensures Rules.Those([s] + rest, k) == (if Rules.Kept(k, s) then [s] else []) + Rules.Those(rest, k)
  {
    assert ([s] + rest)[1..] == rest;
  }

  /** Keeping those with one reason, then those with another that implies it. */
  lemma {:induction false} ThoseTwice(socks: seq<Rules.Sock>, k: Rules.Keep, l: Rules.Keep)
    requires forall s :: Rules.Kept(l, s) ==> Rules.Kept(k, s)
    ensures Rules.Those(Rules.Those(socks, k), l) == Rules.Those(socks, l)
  {
    if socks != [] {
      ThoseTwice(socks[1..], k, l);
      var rest := Rules.Those(socks[1..], k);
      if Rules.Kept(k, socks[0]) {
        ThosePrepend(socks[0], rest, l);
      } else {
        assert Rules.Those(socks, k) == rest;
      }
    }
  }

  class EventRoom {
    const store: RoomStore
    const room: Room
    var socks: seq<Rules.Sock>
    var alarm: Option<int>
    var rate: map<string, Rules.Window>
    var next: int

    ghost function State(): Rules.Relay
      reads this, store
    {
      Rules.Relay(store.State(), socks, alarm, rate, next)
    }

    ghost predicate Valid()
      reads this, store
    {
      room.store == store && WellNamed(State())
    }

    constructor (epoch: string)
      ensures Valid() && fresh(store)
      ensures State() == Rules.Relay(RoomState(map[], 0, epoch, {}), [], None, map[], 0)
    {
      var s := new RoomStore(epoch);
      var r := new Room(s);
      store, room := s, r;
      socks, alarm, rate, next := [], None, map[], 0;
    }

    /** The object starts again over the same storage, with a newer schema. */
    method Restart(epoch: string)
      requires Valid()
      modifies this, store
      ensures Valid()
      ensures State() == Rules.Rebuild(old(State()), epoch)
    {
      rate := map[];
      store.DropCheckIns(epoch);
    }

    method KeepUntil(at: int)
      modifies this`alarm
      ensures alarm == Rules.KeepUntil(old(alarm), at)
    {
      if alarm.None? || alarm.value < at { alarm := Some(at); }
    }

    method WithinRate(passId: string, now: int) returns (ok: bool)
      modifies this`rate
      ensures rate == Rules.Knock(old(rate), passId, now) && ok == Rules.Admits(old(rate), passId, now)
    {
      if passId !in rate || now - rate[passId].start > Rules.RATE_WINDOW_MS {
        rate := rate[passId := Rules.Window(now, 1)];
        return true;
      }
      rate := rate[passId := rate[passId].(n := rate[passId].n + 1)];
      ok := rate[passId].n <= Rules.RATE_PER_WINDOW;
    }

    /** Closes every socket there is no reason to keep. */
    method CloseBut(k: Rules.Keep)
      modifies this`socks
      ensures socks == Rules.Those(old(socks), k)
    {
      var all, stay, i := socks, [], 0;
      while i < |all|
        invariant 0 <= i <= |all|
        invariant Rules.Those(all, k) == stay + Rules.Those(all[i..], k)
      {
        StepThose(all, k, i);
        if Rules.Kept(k, all[i]) {
          Associative(stay, [all[i]], Rules.Those(all[i + 1..], k));
          stay := stay + [all[i]];
        }
        i := i + 1;
      }
      assert all[i..] == [];
      socks := stay;
    }

    /** Closes the first `k` sockets of a pass. */
    method CloseOldest(passId: string, k: int)
      modifies this`socks
      ensures socks == Rules.WithoutOldest(old(socks), passId, k)
    {
      var all, left, i := socks, k, 0;
      var stay: seq<Rules.Sock> := [];
      while i < |all|
        invariant 0 <= i <= |all|
        invariant Rules.WithoutOldest(all, passId, k) == stay + Rules.WithoutOldest(all[i..], passId, left)
      {
        assert all[i..][1..] == all[i + 1..];
        if left > 0 && all[i].passId == passId {
          left := left - 1;
        } else {
          assert left <= 0 ==> all[i..] == [all[i]] + all[i + 1..];
          Associative(stay, [all[i]], Rules.WithoutOldest(all[i + 1..], passId, left));
          stay := stay + [all[i]];
        }
        i := i + 1;
      }
      assert all[i..] == [];
      socks := stay;
    }

    /** One message to every socket but one; expired ones are closed instead. */
    method SendToAll(m: Message, skip: Option<int>, now: int) returns (sent: seq<Sent>)
      modifies this`socks
      ensures socks == Rules.Those(old(socks), Rules.Spared(skip, now))
      ensures sent == ToAll(Rules.Those(old(socks), Rules.Hearing(skip, now)), m)
    {
      var all, stay, i := socks, [], 0;
      sent := [];
      ghost var kept, hearers := Rules.Spared(skip, now), Rules.Hearing(skip, now);
      while i < |all|
        invariant 0 <= i <= |all|
        invariant Rules.Those(all, kept) == stay + Rules.Those(all[i..], kept)
        invariant ToAll(Rules.Those(all, hearers), m) == sent + ToAll(Rules.Those(all[i..], hearers), m)
      {
        StepThose(all, kept, i);
        StepToAll(all, hearers, i, m);
        if skip == Some(all[i].id) || !Rules.Expired(all[i], now) {
          Associative(stay, [all[i]], Rules.Those(all[i + 1..], kept));
          stay := stay + [all[i]];
        }
        if skip != Some(all[i].id) && !Rules.Expired(all[i], now) {
          Associative(sent, [Sent(all[i].id, m)], ToAll(Rules.Those(all[i + 1..], hearers), m));
          sent := sent + [Sent(all[i].id, m)];
        }
        i := i + 1;
      }
      assert all[i..] == [];
      socks := stay;
    }

    /** Does what the room says. */
    method Apply(action: Action, sender: Option<int>, now: int) returns (sent: seq<Sent>)
      requires Valid()
      modifies this
      ensures Valid()
      ensures Given(old(socks), sent, Broadcast(action), if action.Ok? && action.skipSender then sender else None, now)
      ensures State() == Rules.Apply(old(State()), action, sender, now)
      ensures sent == Deliveries(Rules.Hearers(old(socks), action, sender, now),
                                 if action.Ok? then action.broadcast else [])
    {
      sent := [];
      StillOpenIff(socks, action, sender, now);
      ActionGiven(socks, action, sender, now);
      if action.Reject? {
        if sender.Some? { CloseBut(Rules.ButId(sender.value)); }
        return;
      }
      sent := SendEach(action.broadcast, Rules.Skipped(action, sender), now);
      if action.closePass.Some? { CloseBut(Rules.ButPass(action.closePass.value)); }
      if action.keepUntil.Some? && action.keepUntil.value != 0 {
        KeepUntil(action.keepUntil.value + Rules.KEEP_AFTER_MS);
      }
    }

    method SendEach(ms: seq<Message>, skip: Option<int>, now: int) returns (sent: seq<Sent>)
      modifies this`socks
      ensures socks == if ms == [] then old(socks) else Rules.Those(old(socks), Rules.Spared(skip, now))
      ensures sent == Deliveries(if ms == [] then [] else Rules.Those(old(socks), Rules.Hearing(skip, now)), ms)
    {
      sent := [];
      ghost var all := socks;
      ghost var stay, hearers := Rules.Those(all, Rules.Spared(skip, now)), Rules.Those(all, Rules.Hearing(skip, now));
      ThoseTwice(all, Rules.Spared(skip, now), Rules.Spared(skip, now));
      ThoseTwice(all, Rules.Spared(skip, now), Rules.Hearing(skip, now));
      var i := 0;
      while i < |ms|
        invariant 0 <= i <= |ms|
        invariant socks == if i == 0 then all else stay
        invariant Deliveries(hearers, ms) == sent + Deliveries(hearers, ms[i..])
      {
        assert ms[i..][1..] == ms[i + 1..];
        var more := SendToAll(ms[i], skip, now);
        Associative(sent, more, Deliveries(hearers, ms[i + 1..]));
        sent := sent + more;
        i := i + 1;
      }
      assert ms[i..] == [];
    }

    /** A verified phone's request to join, with its cursor; `caughtUp` is what its new socket is sent. */
    method Fetch(passId: string, gate: string, exp: int, afterSeq: int, epoch: Option<string>)
      returns (joined: bool, caughtUp: seq<Message>)
      requires Valid() && WellFormed(store.State())
      modifies this
      ensures Valid()
      ensures joined <==> passId != "" && gate != "" && passId !in old(store.revoked)
      ensures State() == Rules.Join(old(State()), passId, gate, exp)
      ensures caughtUp == if joined then BacklogOf(old(store.State()), afterSeq, epoch) else []
    {
      JoinWellNamed(State(), passId, gate, exp);
      if passId == "" || gate == "" { return false, []; }
      if passId in store.revoked { return false, []; }
      var same := CountSame(passId);
      CloseOldest(passId, same - Rules.SOCKETS_PER_PASS + 1);
      socks := socks + [Rules.Sock(next, passId, gate, exp)];
      next := next + 1;
      caughtUp := room.Backlog(afterSeq, epoch);
      KeepUntil(exp * 1000 + Rules.KEEP_AFTER_MS);
      joined := true;
    }

    method CountSame(passId: string) returns (n: int)
      ensures n == Rules.CountOf(socks, passId)
    {
      n := 0;
      var i := 0;
      while i < |socks|
        invariant 0 <= i <= |socks|
        invariant n + Rules.CountOf(socks[i..], passId) == Rules.CountOf(socks, passId)
      {
        assert socks[i..][1..] == socks[i + 1..];
        if socks[i].passId == passId { n := n + 1; }
        i := i + 1;
      }
    }

    method WebSocketMessage(ws: Rules.Sock, frame: Rules.Frame, now: int) returns (sent: seq<Sent>)
      requires Valid()
      modifies this, store
      ensures Valid()
      ensures State() == Rules.Receive(old(State()), ws, frame, now)
      ensures Given(old(socks), sent,
                    if Turned(old(State()), ws, frame, now) then []
                    else Broadcast(RoomRules.FromPhone(old(store.State()), Sender(ws.passId, ws.gate), frame.raw,
                                                       now).action),
                    Some(ws.id), now)
      ensures sent ==
              if !Rules.Admitted(old(State()), ws, frame, now) then []
              else
                var who := Sender(ws.passId, ws.gate);
                var action := RoomRules.FromPhone(old(store.State()), who, frame.raw, now).action;
                Deliveries(Rules.Hearers(old(socks), action, Some(ws.id), now),
                           if action.Ok? then action.broadcast else [])
    {
      sent := [];
      FrameWellNamed(State(), ws, frame, now);
      NothingGiven(socks, Some(ws.id), now);
      if Rules.Expired(ws, now) {
        CloseBut(Rules.ButId(ws.id));
        return;
      }
      if frame.Binary? {
        CloseBut(Rules.ButId(ws.id));
        return;
      }
      var ok := WithinRate(ws.passId, now);
      if !ok {
        CloseBut(Rules.ButId(ws.id));
        return;
      }
      var action := room.FromPhone(Sender(ws.passId, ws.gate), frame.raw, now);
      sent := Apply(action, Some(ws.id), now);
      MessageGiven(old(socks), old(store.State()), Sender(ws.passId, ws.gate), frame.raw, ws.id, now, sent);
    }

    /** Our server's announcement; `order` is the listing of claims the store gave a revoke. */
    method Announce(body: ServerBody, now: int) returns (ok: bool, sent: seq<Sent>, ghost order: seq<Row>)
      requires Valid() && WellFormed(store.State())
      modifies this, store
      ensures Valid()
      ensures RoomRules.IsRevoke(body) ==> RoomRules.ListsClaims(old(store.rows), body.passId.s, order)
      ensures State() == Rules.Announce(old(State()), body, order, now)
      ensures var o := RoomRules.FromServer(old(store.State()), body, order);
              && ok == o.Some?
              && Given(old(socks), sent, if ok then Broadcast(o.value.action) else [], None, now)
              && sent == if !ok then []
                         else Deliveries(Rules.Hearers(old(socks), o.value.action, None, now),
                                         if o.value.action.Ok? then o.value.action.broadcast else [])
    {
      NothingGiven(socks, None, now);
      var action: Option<Action>;
      action, order := room.FromServer(body);
      if action.None? { return false, [], order; }
      sent := Apply(action.value, None, now);
      KeepUntil(now + Rules.KEEP_AFTER_MS);
      ok := true;
    }

    /** The alarm fires: it is spent before this runs. */
    method Alarm(now: int, epoch: string)
      requires Valid()
      modifies this, store
      ensures Valid()
      ensures State() == Rules.AlarmFires(old(State()), now, epoch)
    {
      AlarmWellNamed(State(), now, epoch);
      alarm := None;
      CloseBut(Rules.Unexpired(now));
      if |socks| > 0 {
        alarm := Some(now + Rules.KEEP_AFTER_MS);
        return;
      }
      store.DeleteAll(epoch);
    }
  }
}
