/** What no run of the system can do: undo a confirmed check-in, wipe a room early, or flood it. */
module Safety {
  import opened RelayTypes
  import opened RoomRules
  import opened RoomProofs
  import opened RoomTheorems
  import opened EventRules
  import opened RateLimit
  import opened System
  import opened RunSteps
  import opened Runs

  // ----- a confirmed check-in -----

  /** The steps that may touch a ticket confirmed at `at`: a wipe, a rebuild, or the server's word on it. */
  ghost predicate Touches(s: State, step: Step, t: string, at: int) {
    || step.Upgrade?
    || (step.Alarm? && Wipes(s.relay, s.now))
    || (step.Say? && FromServer(s.relay.room, step.body, step.order).Some? && Overrides(step.body, t, at))
  }

  predicate Keeps(a: RoomState, b: RoomState, t: string) {
    t in a.rows && t in b.rows && a.rows[t] == b.rows[t]
  }

  /** A step changes a confirmed check-in's row exactly when it is one of those. */
  lemma {:induction false} StepChangesConfirmedIff(s: State, step: Step, t: string)
    requires Consistent(s) && Enabled(s, step) && Confirmed(s.relay.room, t)
    ensures Keeps(s.relay.room, Next(s, step).relay.room, t) <==> !Touches(s, step, t, s.relay.room.rows[t].atMs)
  {
    if step.Say? && FromServer(s.relay.room, step.body, step.order).Some? {
      ServerChangesConfirmedIff(s.relay.room, step.body, step.order, t);
    } else if step.Send? && Admitted(s.relay, step.ws, step.frame, s.now) {
      PhonesKeepConfirmed(s.relay.room, Sender(step.ws.passId, step.ws.gate), step.frame.raw, s.now, t);
    }
  }

  ghost predicate NoneTouches(s: State, steps: seq<Step>, t: string, at: int)
    requires Valid(s, steps)
    decreases steps
  {
    steps == [] || (!Touches(s, steps[0], t, at) && NoneTouches(Next(s, steps[0]), steps[1..], t, at))
  }

  /** Once confirmed, a check-in's row survives every run without such a step, unchanged to the last field. */
  lemma {:induction false} ConfirmedSurvives(s: State, steps: seq<Step>, t: string)
    requires Consistent(s) && Valid(s, steps) && Confirmed(s.relay.room, t)
    requires NoneTouches(s, steps, t, s.relay.room.rows[t].atMs)
    ensures Keeps(s.relay.room, Reached(s, steps).relay.room, t)
    decreases steps
  {
    if steps != [] {
      StepChangesConfirmedIff(s, steps[0], t);
      StepConsistent(s, steps[0]);
      ConfirmedSurvives(Next(s, steps[0]), steps[1..], t);
    }
  }

  // ----- retention -----

  /** Every time asked for is past, or an alarm is set no earlier. */
  ghost predicate KeptSafe(s: State) {
    forall k | k in s.kept :: k <= s.now || (s.relay.alarm.Some? && k <= s.relay.alarm.value)
  }

  lemma {:induction false} RunKeepsKept(s: State, steps: seq<Step>)
    requires KeptSafe(s) && Valid(s, steps)
    ensures KeptSafe(Reached(s, steps))
    decreases steps
  {
    if steps != [] {
      RunKeepsKept(Next(s, steps[0]), steps[1..]);
    }
  }

  /** When an alarm wipes the room, every time it was ever asked to be kept until is past, and every pass expired. */
  lemma {:induction false} NeverWipedEarly(s: State, steps: seq<Step>, epoch: string)
    requires Init(s) && Valid(s, steps)
    requires Enabled(Reached(s, steps), Alarm(epoch)) && Wipes(Reached(s, steps).relay, Reached(s, steps).now)
    ensures var t := Reached(s, steps);
            && (forall k | k in t.kept :: k <= t.now)
            && (forall ws | ws in t.relay.socks :: Expired(ws, t.now))
  {
    RunKeepsKept(s, steps);
    ThoseMembers(Reached(s, steps).relay.socks, Unexpired(Reached(s, steps).now));
  }

  /** Nothing but a wipe or a rebuild drops a row. */
  lemma {:induction false} OnlyWipesDrop(s: State, step: Step)
    requires Consistent(s) && Enabled(s, step)
    requires !step.Upgrade? && !(step.Alarm? && Wipes(s.relay, s.now))
    ensures Grew(s.relay.room, Next(s, step).relay.room)
  {
    if step.Say? && FromServer(s.relay.room, step.body, step.order).Some? {
      FromServerAnnouncedOnce(s.relay.room, step.body, step.order);
    } else if step.Send? && Admitted(s.relay, step.ws, step.frame, s.now) {
      FromPhoneAnnouncedOnce(s.relay.room, Sender(step.ws.passId, step.ws.gate), step.frame.raw, s.now);
    }
  }

  // ----- the rate over a run -----

  /** This step brings the room's object a text frame of an unexpired pass. */
  predicate Arrives(s: State, step: Step) {
    step.Send? && !Expired(step.ws, s.now) && step.frame.Text?
  }

  /** The text frames of unexpired passes, with their times. */
  ghost function Arrivals(s: State, steps: seq<Step>): seq<Arrival>
    requires Valid(s, steps)
    decreases steps
  {
    if steps == [] then []
    else
      (if Arrives(s, steps[0]) then [Arrival(steps[0].ws.passId, s.now)] else [])
      + Arrivals(Next(s, steps[0]), steps[1..])
  }

  /** How many frames of a pass reach the room. */
  ghost function ReachedRoom(s: State, steps: seq<Step>, passId: string): int
    requires Valid(s, steps)
    decreases steps
  {
    if steps == [] then 0
    else
      (if steps[0].Send? && steps[0].ws.passId == passId && Admitted(s.relay, steps[0].ws, steps[0].frame, s.now)
       then 1 else 0) + ReachedRoom(Next(s, steps[0]), steps[1..], passId)
  }

  predicate NoUpgrade(steps: seq<Step>) {
    forall step | step in steps :: !step.Upgrade?
  }

  lemma {:induction false} RunRate(s: State, steps: seq<Step>, passId: string)
    requires Valid(s, steps) && NoUpgrade(steps)
    ensures Reached(s, steps).relay.rate == RateAfter(s.relay.rate, Arrivals(s, steps))
    ensures ReachedRoom(s, steps, passId) == Accepted(s.relay.rate, Arrivals(s, steps), passId)
    decreases steps
  {
    if steps != [] {
      assert steps[0] in steps;
      RunRate(Next(s, steps[0]), steps[1..], passId);
      var rest := Arrivals(Next(s, steps[0]), steps[1..]);
      assert ([Arrival("", 0)] + rest)[1..] == rest;
      RateFirst(s, steps[0], rest, passId);
    }
  }

  lemma {:induction false} ArrivingRate(s: State, step: Step)
    requires Enabled(s, step) && !step.Upgrade?
    ensures Next(s, step).relay.rate == if Arrives(s, step) then Knock(s.relay.rate, step.ws.passId, s.now)
                                        else s.relay.rate
  {
  }

  lemma {:induction false} RateFirst(s: State, step: Step, rest: seq<Arrival>, passId: string)
    requires Enabled(s, step) && !step.Upgrade?
    ensures var rate := Next(s, step).relay.rate;
            var all := (if Arrives(s, step) then [Arrival(step.ws.passId, s.now)] else []) + rest;
            && RateAfter(s.relay.rate, all) == RateAfter(rate, rest)
            && Accepted(s.relay.rate, all, passId) ==
               (if step.Send? && step.ws.passId == passId && Admitted(s.relay, step.ws, step.frame, s.now)
                then 1 else 0) + Accepted(rate, rest, passId)
  {
    ArrivingRate(s, step);
    if Arrives(s, step) {
      assert ([Arrival(step.ws.passId, s.now)] + rest)[1..] == rest;
    } else {
      assert [] + rest == rest;
    }
  }

  lemma {:induction false} ArrivalTimes(s: State, steps: seq<Step>)
    requires Valid(s, steps)
    ensures s.now <= Reached(s, steps).now
    ensures forall a | a in Arrivals(s, steps) :: s.now <= a.at <= Reached(s, steps).now
    decreases steps
  {
    if steps != [] {
      ArrivalTimes(Next(s, steps[0]), steps[1..]);
    }
  }

  /**
   * While the object stays in memory: over any stretch of a run no longer than the window, however a pass's sockets
   * come and go, fewer than two windows' worth of its messages reach the room.
   */
  lemma {:induction false} RateBoundOnRuns(s: State, before: seq<Step>, during: seq<Step>, passId: string)
    requires Init(s) && Valid(s, before) && Valid(Reached(s, before), during)
    requires NoUpgrade(before) && NoUpgrade(during)
    requires Reached(Reached(s, before), during).now - Reached(s, before).now <= 10_000
    ensures ReachedRoom(Reached(s, before), during, passId) <= 99
  {
    var m := Reached(s, before);
    RunRate(s, before, passId);
    RunRate(m, during, passId);
    ArrivalTimes(m, during);
    RateBound(Arrivals(s, before), Arrivals(m, during), passId, m.now);
  }
}
