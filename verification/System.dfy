/** Room, sockets, phones and clock as one transition system; a bundle arrives whole or not at all. */
module System {
  import opened Common
  import opened RelayTypes
  import opened RoomRules
  import opened Replica
  import opened RoomProofs
  import opened Backlog
  import opened EventRules
  import opened PhoneRules

  /** A phone's current socket: bundles on the way to it, and the top up to which the room has sent for it. */
  datatype Link = Link(sock: int, queue: seq<seq<Message>>, upto: int)

  /** `own` are the numbers, in the room as it is now, that this phone's own messages were given. */
  datatype Phone = Phone(view: View, own: set<int>, link: Option<Link>)

  /**
   * `owner` says which phone opened a socket. `epochs` and `kept` are history: every epoch a room had, and every time
   * the room was asked to be kept until.
   */
  datatype State = State(
    relay: Relay,
    phones: map<int, Phone>,
    owner: map<int, int>,
    now: int,
    epochs: set<string>,
    kept: set<int>)

  datatype Step =
    | Connect(phone: int, passId: string, gate: string, exp: int)
    | Send(ws: Sock, frame: Frame)
    | Say(body: ServerBody, order: seq<Row>)
    | Alarm(epoch: string)
    | Upgrade(epoch: string)
    | Gone(sock: int)
    | Arrive(phone: int)
    | Lose(phone: int)
    | Tick(ms: int)

  ghost predicate Init(s: State) {
    && s.relay.room == RoomState(map[], 0, s.relay.room.epoch, {})
    && s.relay.room.epoch != ""
    && s.relay.socks == [] && s.relay.alarm == None && s.relay.rate == map[] && s.relay.next == 0
    && (forall p | p in s.phones :: s.phones[p] == Phone(View("", 0, map[]), {}, None))
    && s.owner == map[]
    && 0 <= s.now
    && s.epochs == {s.relay.room.epoch} && s.kept == {}
  }

  /**
   * When a step can happen: a pass is verified and unexpired when its phone connects; a frame comes over an open
   * socket; an alarm is never early; a new room's epoch was never used; the clock does not go back.
   */
  ghost predicate Enabled(s: State, step: Step) {
    match step
    case Connect(phone, passId, gate, exp) =>
      phone in s.phones && s.phones[phone].link.None? && s.now < exp * 1000
    case Send(ws, frame) => ws in s.relay.socks
    case Say(body, order) => IsRevoke(body) ==> ListsClaims(s.relay.room.rows, body.passId.s, order)
    case Alarm(epoch) =>
      s.relay.alarm.Some? && s.relay.alarm.value <= s.now && epoch !in s.epochs && epoch != ""
    case Upgrade(epoch) => epoch !in s.epochs && epoch != ""
    case Gone(sock) => true
    case Arrive(phone) =>
      phone in s.phones && s.phones[phone].link.Some? && s.phones[phone].link.value.queue != []
    case Lose(phone) => phone in s.phones
    case Tick(ms) => 0 <= ms
  }

  function Cursor(v: View): Option<string> {
    if v.epoch == "" then None else Some(v.epoch)
  }

  /** What the room sends a phone that joins with this view (every reachable room is well-formed). */
  ghost function CatchUp(room: RoomState, v: View): seq<seq<Message>> {
    if WellFormed(room) then BacklogBundles(room, v.heard, Cursor(v)) else []
  }

  /** A phone after a room change: its link gets the broadcast if it is heard there. */
  function Told(ph: Phone, hearers: seq<Sock>, skip: Option<int>, broadcast: seq<Message>, top: int): Phone {
    if ph.link.None? || broadcast == [] then ph
    else if exists ws :: ws in hearers && ws.id == ph.link.value.sock then
      ph.(link := Some(ph.link.value.(queue := ph.link.value.queue + [broadcast], upto := top)))
    else if skip == Some(ph.link.value.sock) then ph.(link := Some(ph.link.value.(upto := top)))
    else ph
  }

  /** A phone after its own message: the numbers the room gave it. */
  function Wrote(ph: Phone, broadcast: seq<Message>): Phone {
    ph.(own := ph.own + set n | n in AllNews(broadcast) :: n.fact.seqNo)
  }

  function Forgotten(phones: map<int, Phone>): map<int, Phone> {
    map p | p in phones :: phones[p].(own := {})
  }

  ghost function Next(s: State, step: Step): State
    requires Enabled(s, step)
  {
    match step
    case Connect(phone, passId, gate, exp) =>
      if !MayJoin(s.relay, passId, gate) then s
      else
        var ph := s.phones[phone];
        var queue := CatchUp(s.relay.room, ph.view);
        s.(relay := Join(s.relay, passId, gate, exp),
           phones := s.phones[phone := ph.(link := Some(Link(s.relay.next, queue, s.relay.room.top)))],
           owner := s.owner[s.relay.next := phone],
           kept := s.kept + {exp * 1000 + KEEP_AFTER_MS})
    case Send(ws, frame) =>
      var relay := Receive(s.relay, ws, frame, s.now);
      if !Admitted(s.relay, ws, frame, s.now) then s.(relay := relay)
      else
        var action := FromPhone(s.relay.room, Sender(ws.passId, ws.gate), frame.raw, s.now).action;
        s.(relay := relay, phones := AfterSend(s, ws, action, relay.room.top))
    case Say(body, order) =>
      var o := FromServer(s.relay.room, body, order);
      if o.None? then s
      else
        var relay := Announce(s.relay, body, order, s.now);
        s.(relay := relay,
           phones := AfterAction(s, o.value.action, None, relay.room.top),
           kept := s.kept + {s.now + KEEP_AFTER_MS} + KeptBy(o.value.action))
    case Alarm(epoch) =>
      var relay := AlarmFires(s.relay.(alarm := None), s.now, epoch);
      if !Wipes(s.relay, s.now) then s.(relay := relay)
      else s.(relay := relay, phones := Forgotten(s.phones), epochs := s.epochs + {epoch})
    case Upgrade(epoch) =>
      s.(relay := Rebuild(s.relay, epoch), phones := Forgotten(s.phones), epochs := s.epochs + {epoch})
    case Gone(sock) => s.(relay := s.relay.(socks := Those(s.relay.socks, ButId(sock))))
    case Arrive(phone) =>
      var ph := s.phones[phone];
      var link := ph.link.value;
      s.(phones := s.phones[phone := ph.(view := HearAll(ph.view, link.queue[0]),
                                         link := Some(link.(queue := link.queue[1..])))])
    case Lose(phone) => s.(phones := s.phones[phone := s.phones[phone].(link := None)])
    case Tick(ms) => s.(now := s.now + ms)
  }

  /** The times an action asks the room to be kept until. */
  function KeptBy(action: Action): set<int> {
    if action.Ok? && action.keepUntil.Some? && action.keepUntil.value != 0
    then {action.keepUntil.value + KEEP_AFTER_MS} else {}
  }

  ghost function AfterAction(s: State, action: Action, sender: Option<int>, top: int): map<int, Phone> {
    var hearers := Hearers(s.relay.socks, action, sender, s.now);
    var broadcast := if action.Ok? then action.broadcast else [];
    map p | p in s.phones :: Told(s.phones[p], hearers, Skipped(action, sender), broadcast, top)
  }

  ghost function AfterSend(s: State, ws: Sock, action: Action, top: int): map<int, Phone> {
    var phones := AfterAction(s, action, Some(ws.id), top);
    if ws.id in s.owner && s.owner[ws.id] in phones
    then phones[s.owner[ws.id] := Wrote(phones[s.owner[ws.id]], if action.Ok? then action.broadcast else [])]
    else phones
  }

  // ----- runs -----

  ghost predicate Valid(s: State, steps: seq<Step>)
    decreases steps
  {
    steps == [] || (Enabled(s, steps[0]) && Valid(Next(s, steps[0]), steps[1..]))
  }

  ghost function Reached(s: State, steps: seq<Step>): State
    requires Valid(s, steps)
    decreases steps
  {
    if steps == [] then s else Reached(Next(s, steps[0]), steps[1..])
  }
}
