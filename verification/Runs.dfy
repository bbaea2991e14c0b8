/** Over every run of the system: rooms stay sane, caps hold, and replicas converge. */
module Runs {
  import opened Common
  import opened RelayTypes
  import opened RoomRules
  import opened Replica
  import opened RoomProofs
  import opened EventRules
  import opened PhoneRules
  import opened System
  import opened Convergence
  import opened CatchingUp
  import opened RunSteps

  // ----- every step -----

  /** Every step keeps the system consistent. */
  lemma {:induction false} StepConsistent(s: State, step: Step)
    requires Consistent(s) && Enabled(s, step)
    ensures Consistent(Next(s, step))
  {
    match step
    case Connect(_, _, _, _) => ConnectConsistent(s, step);
    case Send(ws, frame) =>
      if Admitted(s.relay, ws, frame, s.now) {
        SentConsistent(s, step);
      } else {
        RefusedConsistent(s, step);
      }
    case Say(_, _) => SayConsistent(s, step);
    case Alarm(_) => AlarmConsistent(s, step);
    case Upgrade(_) => UpgradeConsistent(s, step);
    case Gone(_) => GoneConsistent(s, step);
    case Arrive(_) => ArriveConsistent(s, step);
    case Lose(_) =>
    case Tick(_) =>
  }

  lemma {:induction false} RunConsistent(s: State, steps: seq<Step>)
    requires Consistent(s) && Valid(s, steps)
    ensures Consistent(Reached(s, steps))
    decreases steps
  {
    if steps != [] {
      StepConsistent(s, steps[0]);
      RunConsistent(Next(s, steps[0]), steps[1..]);
    }
  }

  // ----- what holds in every reachable state -----

  /** Rooms are well-formed, and no cap is ever exceeded: per pass, per room, per pass's sockets. */
  lemma {:induction false} AlwaysWithinCaps(s: State, steps: seq<Step>)
    requires Init(s) && Valid(s, steps)
    ensures var t := Reached(s, steps);
            && WellFormed(t.relay.room)
            && (forall p :: |OwnedBy(t.relay.room.rows, p)| <= 2_000)
            && |PassOwned(t.relay.room.rows)| <= 20_000
            && (forall p :: CountOf(t.relay.socks, p) <= 4)
  {
    RunConsistent(s, steps);
  }

  /**
   * A phone whose cursor is of this room never gets ahead of it, and knows every row up to its cursor but the ones
   * it wrote. With its catch-up complete on an open link, that is every row: standing ones and tombstones alike.
   */
  lemma {:induction false} ReplicasConverge(s: State, steps: seq<Step>, p: int)
    requires Init(s) && Valid(s, steps) && p in Reached(s, steps).phones
    ensures var t := Reached(s, steps);
            var room, ph := t.relay.room, t.phones[p];
            ph.view.epoch == room.epoch ==>
              && 0 <= ph.view.heard <= room.top
              && (forall k | k in ph.view.replica :: k in room.rows && ph.view.replica[k].seqNo <= room.rows[k].seqNo)
              && (forall k | k in room.rows && room.rows[k].seqNo <= ph.view.heard && room.rows[k].seqNo !in ph.own ::
                    Has(ph.view.replica, room.rows[k]))
              && (ph.link.Some? && Open(t.relay.socks, ph.link.value.sock) && ph.link.value.queue == [] ==>
                    forall k | k in room.rows && room.rows[k].seqNo !in ph.own :: Has(ph.view.replica, room.rows[k]))
  {
    RunConsistent(s, steps);
    var t := Reached(s, steps);
    var room, ph := t.relay.room, t.phones[p];
    if ph.view.epoch == room.epoch {
      assert forall k | k in ph.view.replica :: Sound(room, News(k, ph.view.replica[k]));
      if ph.link.Some? && Open(t.relay.socks, ph.link.value.sock) && ph.link.value.queue == [] {
        NothingOnTheWay(room, ph.own, ph.view, ph.link.value.upto);
      }
    }
  }

  lemma {:induction false} NothingOnTheWay(room: RoomState, own: set<int>, v: View, upto: int)
    requires WellFormed(room) && v.epoch == room.epoch && Knows(room, own, v)
    requires OnTheWay(room, own, v, [], upto) && upto == room.top
    ensures forall k | k in room.rows && room.rows[k].seqNo !in own :: Has(v.replica, room.rows[k])
  {
    forall k | k in room.rows && room.rows[k].seqNo !in own
      ensures room.rows[k].seqNo <= v.heard
    {
      assert RowOk(k, room.rows[k], room.top);
    }
  }

  // ----- a catch-up completes -----

  /** Everything on the way to a phone arrives. */
  lemma {:induction false} Drain(s: State, p: int) returns (steps: seq<Step>)
    requires Consistent(s) && p in s.phones && s.phones[p].link.Some?
    ensures Valid(s, steps)
    ensures var t := Reached(s, steps);
            && t.relay == s.relay && p in t.phones
            && t.phones[p].link == Some(s.phones[p].link.value.(queue := []))
            && t.phones[p].own == s.phones[p].own
            && t.phones[p].view.epoch == Settled(s.phones[p].view, s.phones[p].link.value.queue).epoch
    decreases |s.phones[p].link.value.queue|
  {
    var ph := s.phones[p];
    var queue := ph.link.value.queue;
    if queue == [] {
      steps := [];
    } else {
      var step := Arrive(p);
      StepConsistent(s, step);
      ArrivalEpoch(s.relay.room, s.relay.socks, s.epochs, ph);
      var rest := Drain(Next(s, step), p);
      steps := [step] + rest;
      assert steps[1..] == rest;
    }
  }

  lemma {:induction false} ArrivalEpoch(room: RoomState, socks: seq<Sock>, epochs: set<string>, ph: Phone)
    requires PhoneOk(room, socks, epochs, ph) && ph.link.Some? && ph.link.value.queue != []
    ensures var queue := ph.link.value.queue;
            Settled(HearAll(ph.view, queue[0]), queue[1..]).epoch == Settled(ph.view, queue).epoch
  {
    var queue := ph.link.value.queue;
    if IsHello(queue[0]) {
      assert queue[0] == [queue[0][0]];
      HearOne(ph.view, queue[0][0]);
      NoHelloHead(queue[1..]);
    } else {
      assert queue[0] in queue;
      HearAllIsNews(ph.view, queue[0]);
      EpochStays(ph.view, AllNews(queue[0]));
      NoHelloHead(queue[1..]);
    }
  }

  /**
   * From any reachable state, a phone with no link and a pass that may join can catch up: it joins, what it is sent
   * arrives, and it then knows every row of the room but those it wrote.
   */
  lemma {:induction false} CatchUpCompletes(s: State, before: seq<Step>, p: int, passId: string, gate: string, exp: int)
    returns (steps: seq<Step>)
    requires Init(s) && Valid(s, before)
    requires Enabled(Reached(s, before), Connect(p, passId, gate, exp))
    requires MayJoin(Reached(s, before).relay, passId, gate)
    ensures Valid(Reached(s, before), steps)
    ensures var t := Reached(Reached(s, before), steps);
            && t.relay.room == Reached(s, before).relay.room
            && p in t.phones && t.phones[p].view.epoch == t.relay.room.epoch
            && (forall k | k in t.relay.room.rows && t.relay.room.rows[k].seqNo !in t.phones[p].own ::
                  Has(t.phones[p].view.replica, t.relay.room.rows[k]))
  {
    RunConsistent(s, before);
    var m := Reached(s, before);
    var join := Connect(p, passId, gate, exp);
    CatchUpOnTheWay(m.relay.room, m.phones[p].own, m.phones[p].view);
    StepConsistent(m, join);
    var j := Next(m, join);
    var rest := Drain(j, p);
    steps := [join] + rest;
    assert steps[1..] == rest;
    RunConsistent(j, rest);
    var t := Reached(j, rest);
    NothingOnTheWay(t.relay.room, t.phones[p].own, t.phones[p].view, t.phones[p].link.value.upto);
  }

}
