/**
 * The Durable Object around a room (relay/src/index.ts) as functions: sockets, rate windows and retention.
 *
 * Sockets are kept in the order of joining; what an operation closes is told by the reason to keep the others.
 */
module EventRules {
  import opened Common
  import opened RelayTypes
  import opened RoomRules

  const RATE_PER_WINDOW: int := 50
  const RATE_WINDOW_MS: int := 10_000
  const SOCKETS_PER_PASS: int := 4
  const KEEP_AFTER_MS: int := 24 * 3_600_000

  /** An open socket; `exp` is its pass's expiry in seconds. */
  datatype Sock = Sock(id: int, passId: string, gate: string, exp: int)

  datatype Window = Window(start: int, n: int)

  /** `socks` are in the order they were accepted; `next` names the next one. */
  datatype Relay = Relay(
    room: RoomState,
    socks: seq<Sock>,
    alarm: Option<int>,
    rate: map<string, Window>,
    next: int)

  /** What a phone sends over its socket. */
  datatype Frame = Binary | Text(raw: Raw)

  predicate Expired(s: Sock, now: int) {
    s.exp * 1000 <= now
  }

  // ----- sockets -----

  /** A reason to keep a socket in a list. */
  datatype Keep =
    | ButId(id: int)
    | ButPass(passId: string)
    | Unexpired(now: int)
    | Spared(skip: Option<int>, now: int)
    | Hearing(skip: Option<int>, now: int)

  predicate Kept(k: Keep, s: Sock) {
    match k
    case ButId(id) => s.id != id
    case ButPass(passId) => s.passId != passId
    case Unexpired(now) => !Expired(s, now)
    case Spared(skip, now) => skip == Some(s.id) || !Expired(s, now)
    case Hearing(skip, now) => skip != Some(s.id) && !Expired(s, now)
  }

  function Those(socks: seq<Sock>, k: Keep): seq<Sock> {
    if socks == [] then []
    else (if Kept(k, socks[0]) then [socks[0]] else []) + Those(socks[1..], k)
  }

  function CountOf(socks: seq<Sock>, passId: string): int {
    if socks == [] then 0 else (if socks[0].passId == passId then 1 else 0) + CountOf(socks[1..], passId)
  }

  /** The list without the first `k` sockets of a pass. */
  function WithoutOldest(socks: seq<Sock>, passId: string, k: int): seq<Sock> {
    if socks == [] || k <= 0 then socks
    else if socks[0].passId == passId then WithoutOldest(socks[1..], passId, k - 1)
    else [socks[0]] + WithoutOldest(socks[1..], passId, k)
  }

  // ----- retention and rate -----

  function KeepUntil(alarm: Option<int>, at: int): Option<int> {
    if alarm.None? || alarm.value < at then Some(at) else alarm
  }

  /** A pass's window after one more message at `now`. */
  function NextWindow(rate: map<string, Window>, passId: string, now: int): Window {
    if passId !in rate || now - rate[passId].start > RATE_WINDOW_MS then Window(now, 1)
    else Window(rate[passId].start, rate[passId].n + 1)
  }

  function Knock(rate: map<string, Window>, passId: string, now: int): map<string, Window> {
    rate[passId := NextWindow(rate, passId, now)]
  }

  predicate Admits(rate: map<string, Window>, passId: string, now: int) {
    NextWindow(rate, passId, now).n <= RATE_PER_WINDOW
  }

  // ----- a phone joins -----

  predicate MayJoin(r: Relay, passId: string, gate: string) {
    passId != "" && gate != "" && passId !in r.room.revoked
  }

  /** A verified phone joins: the oldest sockets of its pass make room, and the room is kept past its expiry. */
  function Join(r: Relay, passId: string, gate: string, exp: int): Relay {
    if !MayJoin(r, passId, gate) then r
    else
      var stay := WithoutOldest(r.socks, passId, CountOf(r.socks, passId) - SOCKETS_PER_PASS + 1);
      r.(socks := stay + [Sock(r.next, passId, gate, exp)],
         next := r.next + 1,
         alarm := KeepUntil(r.alarm, exp * 1000 + KEEP_AFTER_MS))
  }

  // ----- doing what the room says -----

  function Skipped(action: Action, sender: Option<int>): Option<int> {
    if action.Ok? && action.skipSender then sender else None
  }

  /** The sockets an action's broadcast is sent to. */
  function Hearers(socks: seq<Sock>, action: Action, sender: Option<int>, now: int): seq<Sock> {
    if action.Ok? && action.broadcast != [] then Those(socks, Hearing(Skipped(action, sender), now)) else []
  }

  /** The sockets still open afterwards. */
  function StillOpen(socks: seq<Sock>, action: Action, sender: Option<int>, now: int): seq<Sock> {
    match action
    case Reject(_) => if sender.Some? then Those(socks, ButId(sender.value)) else socks
    case Ok(broadcast, _, closePass, _, _) =>
      var heard := if broadcast == [] then socks else Those(socks, Spared(Skipped(action, sender), now));
      if closePass.Some? then Those(heard, ButPass(closePass.value)) else heard
  }

  /** A `keepUntil` of zero is taken for none. */
  function AlarmAfter(alarm: Option<int>, action: Action): Option<int> {
    if action.Ok? && action.keepUntil.Some? && action.keepUntil.value != 0
    then KeepUntil(alarm, action.keepUntil.value + KEEP_AFTER_MS) else alarm
  }

  function Apply(r: Relay, action: Action, sender: Option<int>, now: int): Relay {
    r.(socks := StillOpen(r.socks, action, sender, now), alarm := AlarmAfter(r.alarm, action))
  }

  /** Whether a frame gets as far as the room. */
  predicate Admitted(r: Relay, ws: Sock, frame: Frame, now: int) {
    !Expired(ws, now) && frame.Text? && Admits(r.rate, ws.passId, now)
  }

  /** A frame from a phone. */
  function Receive(r: Relay, ws: Sock, frame: Frame, now: int): Relay {
    if Expired(ws, now) || frame.Binary? then r.(socks := Those(r.socks, ButId(ws.id)))
    else
      var counted := r.(rate := Knock(r.rate, ws.passId, now));
      if !Admits(r.rate, ws.passId, now) then counted.(socks := Those(r.socks, ButId(ws.id)))
      else
        var o := FromPhone(r.room, Sender(ws.passId, ws.gate), frame.raw, now);
        Apply(counted.(room := o.room), o.action, Some(ws.id), now)
  }

  /** Our server's announcement; a bad body changes nothing. */
  function Announce(r: Relay, body: ServerBody, order: seq<Row>, now: int): Relay {
    var o := FromServer(r.room, body, order);
    if o.None? then r
    else
      var done := Apply(r.(room := o.value.room), o.value.action, None, now);
      done.(alarm := KeepUntil(done.alarm, now + KEEP_AFTER_MS))
  }

  /** The alarm fires (and is spent): expired sockets close; with none left the room is wiped under a new epoch. */
  function AlarmFires(r: Relay, now: int, epoch: string): Relay {
    var live := Those(r.socks, Unexpired(now));
    if live != [] then r.(socks := live, alarm := Some(now + KEEP_AFTER_MS))
    else r.(room := RoomState(map[], 0, epoch, {}), socks := [], alarm := None)
  }

  predicate Wipes(r: Relay, now: int) {
    Those(r.socks, Unexpired(now)) == []
  }

  /** The object starts again with a newer schema: check-ins go, revocations stay, and the rate windows are lost. */
  function Rebuild(r: Relay, epoch: string): Relay {
    r.(room := RoomState(map[], 0, epoch, r.room.revoked), rate := map[])
  }

  // ----- lists of sockets -----

  lemma {:induction false} ThoseMembers(socks: seq<Sock>, k: Keep)
    ensures forall s :: s in Those(socks, k) <==> s in socks && Kept(k, s)
  {
    if socks != [] {
      ThoseMembers(socks[1..], k);
      assert forall s :: s in socks <==> s == socks[0] || s in socks[1..];
    }
  }

  lemma {:induction false} ThoseCount(socks: seq<Sock>, k: Keep, passId: string)
    ensures CountOf(Those(socks, k), passId) <= CountOf(socks, passId)
  {
    if socks != [] {
      ThoseCount(socks[1..], k, passId);
      if Kept(k, socks[0]) {
        CountFirst(socks[0], Those(socks[1..], k), passId);
      } else {
        assert Those(socks, k) == Those(socks[1..], k);
      }
    }
  }

  lemma {:induction false} CountFirst(s: Sock, rest: seq<Sock>, passId: string)
    ensures CountOf([s] + rest, passId) == (if s.passId == passId then 1 else 0) + CountOf(rest, passId)
  {
    assert ([s] + rest)[1..] == rest;
  }

  lemma {:induction false} CountAppend(a: seq<Sock>, b: seq<Sock>, passId: string)
    ensures CountOf(a + b, passId) == CountOf(a, passId) + CountOf(b, passId)
  {
    if a == [] {
      assert a + b == b;
    } else {
      assert (a + b)[1..] == a[1..] + b;
      CountAppend(a[1..], b, passId);
    }
  }

  lemma {:induction false} WithoutOldestMembers(socks: seq<Sock>, passId: string, k: int)
    ensures forall s | s in WithoutOldest(socks, passId, k) :: s in socks
    ensures forall s | s in socks && s.passId != passId :: s in WithoutOldest(socks, passId, k)
  {
    if socks != [] && k > 0 {
      WithoutOldestMembers(socks[1..], passId, if socks[0].passId == passId then k - 1 else k);
      assert forall s :: s in socks <==> s == socks[0] || s in socks[1..];
    }
  }

  lemma {:induction false} CountNat(socks: seq<Sock>, passId: string)
    ensures 0 <= CountOf(socks, passId)
  {
    if socks != [] {
      CountNat(socks[1..], passId);
    }
  }

  lemma {:induction false} WithoutOldestCount(socks: seq<Sock>, passId: string, k: int, other: string)
    requires k <= CountOf(socks, passId)
    ensures CountOf(WithoutOldest(socks, passId, k), other) ==
            CountOf(socks, other) - (if other == passId && k > 0 then k else 0)
  {
    if socks != [] && k > 0 {
      if socks[0].passId == passId {
        WithoutOldestCount(socks[1..], passId, k - 1, other);
      } else {
        WithoutOldestCount(socks[1..], passId, k, other);
        CountFirst(socks[0], WithoutOldest(socks[1..], passId, k), other);
      }
    } else {
      CountNat(socks, passId);
    }
  }

  /** No pass has more sockets open than it may. */
  ghost predicate SocketsWithinCap(socks: seq<Sock>) {
    forall p :: CountOf(socks, p) <= SOCKETS_PER_PASS
  }

  lemma {:induction false} JoinWithinCap(r: Relay, passId: string, gate: string, exp: int)
    requires SocketsWithinCap(r.socks)
    ensures SocketsWithinCap(Join(r, passId, gate, exp).socks)
  {
    if MayJoin(r, passId, gate) {
      var k := CountOf(r.socks, passId) - SOCKETS_PER_PASS + 1;
      var stay := WithoutOldest(r.socks, passId, k);
      forall p
        ensures CountOf(stay + [Sock(r.next, passId, gate, exp)], p) <= SOCKETS_PER_PASS
      {
        WithoutOldestCount(r.socks, passId, k, p);
        CountAppend(stay, [Sock(r.next, passId, gate, exp)], p);
        CountFirst(Sock(r.next, passId, gate, exp), [], p);
        assert [Sock(r.next, passId, gate, exp)] + [] == [Sock(r.next, passId, gate, exp)];
      }
    }
  }

  lemma {:induction false} FewerWithinCap(socks: seq<Sock>, k: Keep)
    requires SocketsWithinCap(socks)
    ensures SocketsWithinCap(Those(socks, k))
  {
    forall p
      ensures CountOf(Those(socks, k), p) <= SOCKETS_PER_PASS
    {
      ThoseCount(socks, k, p);
    }
  }

  lemma {:induction false} StillOpenWithinCap(socks: seq<Sock>, action: Action, sender: Option<int>, now: int)
    requires SocketsWithinCap(socks)
    ensures SocketsWithinCap(StillOpen(socks, action, sender, now))
  {
    match action
    case Reject(_) =>
      if sender.Some? {
        FewerWithinCap(socks, ButId(sender.value));
      }
    case Ok(broadcast, _, closePass, _, _) =>
      var heard := if broadcast == [] then socks else Those(socks, Spared(Skipped(action, sender), now));
      FewerWithinCap(socks, Spared(Skipped(action, sender), now));
      if closePass.Some? {
        FewerWithinCap(heard, ButPass(closePass.value));
      }
  }
}
