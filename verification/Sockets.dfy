/** Which sockets are open, told from outside (relay/src/index.ts). */
module Sockets {
  import opened Common
  import opened RelayTypes
  import opened RoomRules
  import opened RoomTheorems
  import opened EventRules

  /** Names are handed out in the order of joining; so two lists in order with the same members are the same list. */
  ghost predicate InIdOrder(socks: seq<Sock>) {
    forall i, j | 0 <= i < j < |socks| :: socks[i].id < socks[j].id
  }

  /** Every name is used once, and the next is new. */
  ghost predicate WellNamed(r: Relay) {
    InIdOrder(r.socks) && forall s | s in r.socks :: s.id < r.next
  }

  lemma {:induction false} OrderPrepend(s: Sock, rest: seq<Sock>)
    requires InIdOrder(rest) && forall o | o in rest :: s.id < o.id
    ensures InIdOrder([s] + rest)
  {
    assert forall i | 0 <= i < |rest| :: rest[i] in rest;
  }

  lemma {:induction false} FirstIsOldest(socks: seq<Sock>)
    requires InIdOrder(socks) && socks != []
    ensures InIdOrder(socks[1..]) && forall o | o in socks[1..] :: socks[0].id < o.id
  {
    forall o | o in socks[1..]
      ensures socks[0].id < o.id
    {
      var j :| 0 <= j < |socks[1..]| && socks[1..][j] == o;
      assert socks[j + 1] == o;
    }
  }

  lemma {:induction false} ThoseInOrder(socks: seq<Sock>, k: Keep)
    requires InIdOrder(socks)
    ensures InIdOrder(Those(socks, k))
  {
    if socks != [] {
      FirstIsOldest(socks);
      ThoseInOrder(socks[1..], k);
      ThoseMembers(socks[1..], k);
      if Kept(k, socks[0]) {
        OrderPrepend(socks[0], Those(socks[1..], k));
      } else {
        assert Those(socks, k) == Those(socks[1..], k);
      }
    }
  }

  lemma FirstIn(socks: seq<Sock>)
    ensures socks != [] ==> socks[0] in socks
  {
  }

  lemma {:induction false} SameInOrder(a: seq<Sock>, b: seq<Sock>)
    requires InIdOrder(a) && InIdOrder(b) && forall s :: s in a <==> s in b
    ensures a == b
  {
    if a == [] {
      FirstIn(b);
    } else {
      FirstIsOldest(a);
      assert a[0] in b;
      FirstIsOldest(b);
      assert b[0] in a;
      assert forall s :: s in a <==> s == a[0] || s in a[1..];
      assert forall s :: s in b <==> s == b[0] || s in b[1..];
      assert a[0] == b[0];
      SameInOrder(a[1..], b[1..]);
      assert a == [a[0]] + a[1..] && b == [b[0]] + b[1..];
    }
  }

  // ----- joining -----

  /** The pass's sockets. */
  function Of(socks: seq<Sock>, passId: string): set<int> {
    set s | s in socks && s.passId == passId :: s.id
  }

  lemma {:induction false} OfFirst(socks: seq<Sock>, passId: string)
    requires socks != []
    ensures Of(socks, passId) == (if socks[0].passId == passId then {socks[0].id} else {}) + Of(socks[1..], passId)
  {
    assert forall s :: s in socks <==> s == socks[0] || s in socks[1..];
  }

  lemma {:induction false} CountIsOf(socks: seq<Sock>, passId: string)
    requires InIdOrder(socks)
    ensures CountOf(socks, passId) == |Of(socks, passId)|
  {
    if socks != [] {
      FirstIsOldest(socks);
      CountIsOf(socks[1..], passId);
      OfFirst(socks, passId);
      assert socks[0].id !in Of(socks[1..], passId);
    }
  }

  /** Those that stay are in order; of the pass, none stays that is older than one that goes. */
  lemma {:induction false} OldestGo(socks: seq<Sock>, passId: string, k: int)
    requires InIdOrder(socks)
    ensures InIdOrder(WithoutOldest(socks, passId, k))
    ensures forall s, o | s in WithoutOldest(socks, passId, k) && o in socks && s.passId == o.passId == passId &&
                          s.id < o.id :: o in WithoutOldest(socks, passId, k)
  {
    if socks != [] && k > 0 {
      FirstIsOldest(socks);
      var stay := WithoutOldest(socks[1..], passId, if socks[0].passId == passId then k - 1 else k);
      OldestGo(socks[1..], passId, if socks[0].passId == passId then k - 1 else k);
      WithoutOldestMembers(socks[1..], passId, if socks[0].passId == passId then k - 1 else k);
      assert forall s :: s in socks <==> s == socks[0] || s in socks[1..];
      if socks[0].passId != passId {
        OrderPrepend(socks[0], stay);
      }
    }
  }

  /** A phone may join with a pass that names itself and its gate, unless the pass was revoked. */
  predicate Welcome(r: Relay, passId: string, gate: string) {
    |passId| > 0 && |gate| > 0 && passId !in r.room.revoked
  }

  lemma {:induction false} TurnedAway(r: Relay, passId: string, gate: string, exp: int)
    ensures MayJoin(r, passId, gate) <==> Welcome(r, passId, gate)
    ensures !Welcome(r, passId, gate) ==> Join(r, passId, gate, exp) == r
  {
  }

  /** A socket more: others' stay, and of its pass at most four are open, of which none is older than one that went. */
  ghost predicate Newest(was: seq<Sock>, now: seq<Sock>, own: Sock) {
    && InIdOrder(now) && own in now
    && (forall s | s in now :: s == own || s in was)
    && (forall s | s in was && s.passId != own.passId :: s in now)
    && (forall s, o | s in was && o in was && s.passId == o.passId == own.passId && s.id < o.id ::
          s in now ==> o in now)
    && |Of(now, own.passId)| == Min(|Of(was, own.passId)| + 1, 4)
  }

  /**
   * A phone that joins gets the newest socket, under a new name. Other passes' sockets stay. Of its own pass at most
   * four are open afterwards: where one had to go it was the oldest, and none goes if there is room.
   */
  lemma {:induction false} JoinKeepsNewest(r: Relay, passId: string, gate: string, exp: int)
    requires WellNamed(r) && Welcome(r, passId, gate)
    ensures Newest(r.socks, Join(r, passId, gate, exp).socks, Sock(r.next, passId, gate, exp))
  {
    JoinedSocks(r.socks, passId, Sock(r.next, passId, gate, exp));
    JoinIs(r, passId, gate, exp);
  }

  lemma {:induction false} JoinIs(r: Relay, passId: string, gate: string, exp: int)
    requires Welcome(r, passId, gate)
    ensures Join(r, passId, gate, exp).socks ==
            WithoutOldest(r.socks, passId, CountOf(r.socks, passId) - SOCKETS_PER_PASS + 1) +
            [Sock(r.next, passId, gate, exp)]
  {
  }

  lemma {:induction false} JoinWellNamed(r: Relay, passId: string, gate: string, exp: int)
    requires WellNamed(r)
    ensures WellNamed(Join(r, passId, gate, exp))
  {
    TurnedAway(r, passId, gate, exp);
    if Welcome(r, passId, gate) {
      JoinKeepsNewest(r, passId, gate, exp);
    }
  }

  /** The room is kept a day past the pass's expiry, or longer if it already was; nothing is said or counted. */
  lemma {:induction false} JoinKeepsRoom(r: Relay, passId: string, gate: string, exp: int)
    requires Welcome(r, passId, gate)
    ensures var next := Join(r, passId, gate, exp);
            && next.next == r.next + 1 && next.room == r.room && next.rate == r.rate
            && next.alarm.Some? && IsLatest(next.alarm.value, exp * 1000 + 86_400_000, r.alarm, None)
  {
  }

  lemma {:induction false} JoinedSocks(socks: seq<Sock>, passId: string, own: Sock)
    requires InIdOrder(socks) && own.passId == passId && forall s | s in socks :: s.id < own.id
    ensures Newest(socks, WithoutOldest(socks, passId, CountOf(socks, passId) - SOCKETS_PER_PASS + 1) + [own], own)
  {
    var k := CountOf(socks, passId) - SOCKETS_PER_PASS + 1;
    var stay := WithoutOldest(socks, passId, k);
    OldestGo(socks, passId, k);
    WithoutOldestMembers(socks, passId, k);
    assert forall i | 0 <= i < |stay| :: stay[i] in stay;
    assert forall s :: s in stay + [own] <==> s in stay || s == own;
    JoinCounts(socks, passId, stay, own);
  }

  lemma {:induction false} JoinCounts(socks: seq<Sock>, passId: string, stay: seq<Sock>, own: Sock)
    requires InIdOrder(socks) && InIdOrder(stay + [own]) && own.passId == passId
    requires stay == WithoutOldest(socks, passId, CountOf(socks, passId) - SOCKETS_PER_PASS + 1)
    ensures |Of(stay + [own], passId)| == Min(|Of(socks, passId)| + 1, 4)
  {
    var k := CountOf(socks, passId) - SOCKETS_PER_PASS + 1;
    CountIsOf(socks, passId);
    CountIsOf(stay + [own], passId);
    WithoutOldestCount(socks, passId, k, passId);
    CountAppend(stay, [own], passId);
    CountFirst(own, [], passId);
    assert [own] + [] == [own];
  }

  // ----- what an action leaves open -----

  /** A refused message closes its socket; a broadcast closes expired sockets it meets, and a revoke its pass's. */
  lemma {:induction false} StillOpenIff(socks: seq<Sock>, action: Action, sender: Option<int>, now: int)
    requires InIdOrder(socks)
    ensures InIdOrder(StillOpen(socks, action, sender, now))
    ensures forall s :: s in StillOpen(socks, action, sender, now) <==>
              && s in socks
              && (action.Reject? ==> sender != Some(s.id))
              && (action.Ok? ==>
                    && action.closePass != Some(s.passId)
                    && (now < s.exp * 1000 || action.broadcast == [] || (action.skipSender && sender == Some(s.id))))
  {
    match action
    case Reject(_) =>
      if sender.Some? {
        ThoseMembers(socks, ButId(sender.value));
        ThoseInOrder(socks, ButId(sender.value));
      }
    case Ok(broadcast, _, closePass, _, _) =>
      var heard := if broadcast == [] then socks else Those(socks, Spared(Skipped(action, sender), now));
      ThoseMembers(socks, Spared(Skipped(action, sender), now));
      ThoseInOrder(socks, Spared(Skipped(action, sender), now));
      if closePass.Some? {
        ThoseMembers(heard, ButPass(closePass.value));
        ThoseInOrder(heard, ButPass(closePass.value));
      }
  }

  /** The frame is turned away before the room sees it: an expired pass, no text, or one too many. */
  predicate Turned(r: Relay, ws: Sock, frame: Frame, now: int) {
    ws.exp * 1000 <= now || frame.Binary? || NextWindow(r.rate, ws.passId, now).n > 50
  }

  /**
   * A frame turned away closes its own socket, and does nothing else but count: one of an unexpired pass, if text. Any
   * other is the room's to take; if the room rejects it, that socket closes too. No frame moves the alarm.
   */
  lemma {:induction false} FrameIff(r: Relay, ws: Sock, frame: Frame, now: int)
    requires WellNamed(r)
    ensures var next := Receive(r, ws, frame, now);
            var o := if frame.Text? then FromPhone(r.room, Sender(ws.passId, ws.gate), frame.raw, now)
                     else Outcome(r.room, NOTHING);
            && WellNamed(next) && next.alarm == r.alarm && next.next == r.next
            && next.room == (if Turned(r, ws, frame, now) then r.room else o.room)
            && next.rate == (if now < ws.exp * 1000 && frame.Text?
                             then r.rate[ws.passId := NextWindow(r.rate, ws.passId, now)] else r.rate)
            && (forall s :: s in next.socks <==>
                  && s in r.socks
                  && (s.id == ws.id ==> !Turned(r, ws, frame, now) && o.action.Ok?)
                  && (s.id != ws.id ==>
                        now < s.exp * 1000 || Turned(r, ws, frame, now) || Broadcast(o.action) == []))
  {
    if Turned(r, ws, frame, now) {
      ThoseMembers(r.socks, ButId(ws.id));
      ThoseInOrder(r.socks, ButId(ws.id));
    } else {
      var action := FromPhone(r.room, Sender(ws.passId, ws.gate), frame.raw, now).action;
      PhoneActions(r.room, Sender(ws.passId, ws.gate), frame.raw, now);
      StillOpenIff(r.socks, action, Some(ws.id), now);
    }
  }

  lemma {:induction false} FrameWellNamed(r: Relay, ws: Sock, frame: Frame, now: int)
    requires WellNamed(r)
    ensures WellNamed(Receive(r, ws, frame, now))
    ensures Turned(r, ws, frame, now) <==> !Admitted(r, ws, frame, now)
  {
    FrameIff(r, ws, frame, now);
  }

  /** A phone's message skips its sender, and asks for nothing else. */
  lemma {:induction false} PhoneActions(st: RoomState, who: Sender, raw: Raw, now: int)
    ensures var action := FromPhone(st, who, raw, now).action;
            action.Ok? ==>
              action.closePass.None? && action.keepUntil.None? && (action.broadcast != [] ==> action.skipSender)
  {
  }

  /** An announcement taken keeps the room a day from now, or as long as it asks for or was kept, if longer. */
  lemma {:induction false} AnnounceIff(r: Relay, body: ServerBody, order: seq<Row>, now: int)
    requires WellNamed(r)
    ensures var next := Announce(r, body, order, now);
            var o := FromServer(r.room, body, order);
            && WellNamed(next) && next.next == r.next && next.rate == r.rate
            && (o.None? ==> next == r)
            && (o.Some? ==>
                  && next.room == o.value.room
                  && next.socks == StillOpen(r.socks, o.value.action, None, now)
                  && next.alarm.Some?
                  && IsLatest(next.alarm.value, now + 86_400_000, r.alarm,
                              if o.value.action.Ok? then o.value.action.keepUntil else None))
  {
    var o := FromServer(r.room, body, order);
    if o.Some? {
      StillOpenIff(r.socks, o.value.action, None, now);
    }
  }

  /** The latest of a time, the alarm that was, and a day past the time asked for (zero is none). */
  predicate IsLatest(at: int, least: int, was: Option<int>, asked: Option<int>) {
    && least <= at
    && (was.Some? ==> was.value <= at)
    && (asked.Some? && asked.value != 0 ==> asked.value + 86_400_000 <= at)
    && (at == least || was == Some(at) || (asked.Some? && asked.value != 0 && at == asked.value + 86_400_000))
  }

  /**
   * The alarm closes the expired sockets. While another is open it is set again, a day on, and nothing else changes;
   * with none, everything goes, revocations too, and the room is a new one.
   */
  lemma {:induction false} AlarmIff(r: Relay, now: int, epoch: string)
    requires WellNamed(r)
    ensures var next := AlarmFires(r, now, epoch);
            && WellNamed(next) && next.next == r.next && next.rate == r.rate
            && (forall s :: s in next.socks <==> s in r.socks && now < s.exp * 1000)
            && (next.socks != [] ==> next.room == r.room && next.alarm == Some(now + 86_400_000))
            && (next.socks == [] ==> next.room == RoomState(map[], 0, epoch, {}) && next.alarm == None)
  {
    var live := Those(r.socks, Unexpired(now));
    LiveSocks(r.socks, now);
    assert live != [] ==> live[0] in live;
  }

  lemma {:induction false} AlarmWellNamed(r: Relay, now: int, epoch: string)
    requires WellNamed(r)
    ensures WellNamed(AlarmFires(r, now, epoch))
  {
    AlarmIff(r, now, epoch);
  }

  /**
   * A start over a newer schema forgets every row and every count, under a new epoch; who is revoked, whose sockets are
   * open and how long the room is kept stay.
   */
  lemma {:induction false} RebuildIff(r: Relay, epoch: string, passId: string, now: int)
    ensures var next := Rebuild(r, epoch);
            && next.room.rows == map[] && next.room.top == 0 && next.room.epoch == epoch
            && next.room.revoked == r.room.revoked
            && next.socks == r.socks && next.next == r.next && next.alarm == r.alarm
            && NextWindow(next.rate, passId, now) == Window(now, 1)
  {
  }

  lemma {:induction false} LiveSocks(socks: seq<Sock>, now: int)
    requires InIdOrder(socks)
    ensures InIdOrder(Those(socks, Unexpired(now)))
    ensures forall s :: s in Those(socks, Unexpired(now)) <==> s in socks && now < s.exp * 1000
  {
    ThoseMembers(socks, Unexpired(now));
    ThoseInOrder(socks, Unexpired(now));
  }
}
