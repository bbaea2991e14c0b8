/** Exactly when a revoked pass stays out, over everything that may follow its revoke. */
module Revocation {
  import opened Common
  import opened RelayTypes
  import opened RoomRules
  import opened RoomProofs
  import opened RoomTheorems
  import opened EventRules
  import opened System
  import opened RunSteps
  import opened Runs

  ghost predicate NoSocket(socks: seq<Sock>, passId: string) {
    forall ws | ws in socks :: ws.passId != passId
  }

  ghost predicate NoClaim(room: RoomState, passId: string) {
    forall t | t in room.rows :: !OpenClaim(room.rows[t], passId)
  }

  /** The room will remember the revocation as long as a token could live. */
  ghost predicate Remembered(s: State, passId: string, until: int) {
    until <= s.now || (passId in s.relay.room.revoked && s.relay.alarm.Some? && until <= s.relay.alarm.value)
  }

  ghost predicate Out(s: State, passId: string, until: int) {
    NoSocket(s.relay.socks, passId) && NoClaim(s.relay.room, passId) && Remembered(s, passId, until)
  }

  lemma {:induction false} PhoneOpensNone(st: RoomState, who: Sender, raw: Raw, now: int, passId: string)
    requires Sane(st) && NoClaim(st, passId) && who.passId != passId
    ensures var room := FromPhone(st, who, raw, now).room; NoClaim(room, passId) && room.revoked == st.revoked
  {
    FromPhoneAnnouncedOnce(st, who, raw, now);
  }

  lemma {:induction false} SendKeepsOut(s: State, step: Step, passId: string, until: int)
    requires Consistent(s) && Enabled(s, step) && step.Send? && Out(s, passId, until)
    ensures Out(Next(s, step), passId, until)
  {
    if Admitted(s.relay, step.ws, step.frame, s.now) {
      var who := Sender(step.ws.passId, step.ws.gate);
      PhoneOpensNone(s.relay.room, who, step.frame.raw, s.now, passId);
      StillOpenWereOpen(s.relay.socks, FromPhone(s.relay.room, who, step.frame.raw, s.now).action,
                        Some(step.ws.id), s.now);
    } else {
      ThoseMembers(s.relay.socks, ButId(step.ws.id));
    }
  }

  lemma {:induction false} ServerOpensNone(st: RoomState, body: ServerBody, order: seq<Row>, passId: string)
    requires Sane(st) && NoClaim(st, passId)
    requires IsRevoke(body) ==> ListsClaims(st.rows, body.passId.s, order)
    ensures var o := FromServer(st, body, order);
            o.Some? ==> NoClaim(o.value.room, passId) && st.revoked <= o.value.room.revoked
  {
    FromServerAnnouncedOnce(st, body, order);
    FromServerRevokes(st, body, order);
  }

  lemma {:induction false} SayKeepsOut(s: State, step: Step, passId: string, until: int)
    requires Consistent(s) && Enabled(s, step) && step.Say? && Out(s, passId, until)
    ensures Out(Next(s, step), passId, until)
  {
    var o := FromServer(s.relay.room, step.body, step.order);
    if o.Some? {
      ServerOpensNone(s.relay.room, step.body, step.order, passId);
      StillOpenWereOpen(s.relay.socks, o.value.action, None, s.now);
    }
  }

  /** The alarm after a revoke: the latest of a day from now, a day past the time named, and what it was. */
  lemma {:induction false} RevokeAlarm(s: State, step: Step)
    requires Enabled(s, step) && step.Say? && IsRevoke(step.body)
    ensures var alarm, until := Next(s, step).relay.alarm, step.body.until;
            var named := until.Some? && until.value != 0;
            && alarm.Some?
            && s.now + KEEP_AFTER_MS <= alarm.value
            && (named ==> until.value + KEEP_AFTER_MS <= alarm.value)
            && (s.relay.alarm.Some? ==> s.relay.alarm.value <= alarm.value)
            && (alarm.value == s.now + KEEP_AFTER_MS || (named && alarm.value == until.value + KEEP_AFTER_MS)
                || alarm == s.relay.alarm)
  {
  }

  /** The revoke itself: the pass's sockets close, its claims go, and it is remembered until the alarm. */
  lemma {:induction false} RevokePutsOut(s: State, step: Step, until: int)
    requires Consistent(s) && Enabled(s, step) && step.Say? && IsRevoke(step.body)
    requires Next(s, step).relay.alarm.Some? && until <= Next(s, step).relay.alarm.value
    ensures Out(Next(s, step), step.body.passId.s, until)
  {
    var o := FromServer(s.relay.room, step.body, step.order).value;
    FromServerRevokes(s.relay.room, step.body, step.order);
    var heard := if o.action.broadcast == [] then s.relay.socks
                 else Those(s.relay.socks, Spared(Skipped(o.action, None), s.now));
    ThoseMembers(heard, ButPass(step.body.passId.s));
  }

  lemma {:induction false} ConnectKeepsOut(s: State, step: Step, passId: string, until: int)
    requires Enabled(s, step) && step.Connect? && Out(s, passId, until)
    requires step.passId == passId ==> step.exp * 1000 <= until
    ensures Out(Next(s, step), passId, until)
  {
    WithoutOldestMembers(s.relay.socks, step.passId, CountOf(s.relay.socks, step.passId) - SOCKETS_PER_PASS + 1);
  }

  lemma {:induction false} StepKeepsOut(s: State, step: Step, passId: string, until: int)
    requires Consistent(s) && Enabled(s, step) && Out(s, passId, until)
    requires step.Connect? && step.passId == passId ==> step.exp * 1000 <= until
    ensures Out(Next(s, step), passId, until)
  {
    match step
    case Connect(_, _, _, _) => ConnectKeepsOut(s, step, passId, until);
    case Send(_, _) => SendKeepsOut(s, step, passId, until);
    case Say(_, _) => SayKeepsOut(s, step, passId, until);
    case Alarm(_) => ThoseMembers(s.relay.socks, Unexpired(s.now));
    case Gone(sock) => ThoseMembers(s.relay.socks, ButId(sock));
    case Upgrade(_) =>
    case Arrive(_) =>
    case Lose(_) =>
    case Tick(_) =>
  }

  // ----- everything that may follow -----

  /** No token of the pass that is used expires later; of other passes nothing is asked. */
  predicate TokensUntil(steps: seq<Step>, passId: string, exp: int) {
    forall step | step in steps && step.Connect? && step.passId == passId :: step.exp <= exp
  }

  lemma {:induction false} RunKeepsOut(s: State, steps: seq<Step>, passId: string, exp: int)
    requires Consistent(s) && Out(s, passId, exp * 1000) && Valid(s, steps) && TokensUntil(steps, passId, exp)
    ensures Out(Reached(s, steps), passId, exp * 1000)
    decreases steps
  {
    if steps != [] {
      assert steps[0] in steps;
      StepConsistent(s, steps[0]);
      StepKeepsOut(s, steps[0], passId, exp * 1000);
      RunKeepsOut(Next(s, steps[0]), steps[1..], passId, exp);
    }
  }

  /** In every state reached, the pass has no open socket and no standing claim. */
  ghost predicate StaysOut(s: State, passId: string, exp: int) {
    forall steps | Valid(s, steps) && TokensUntil(steps, passId, exp) ::
      NoSocket(Reached(s, steps).relay.socks, passId) && NoClaim(Reached(s, steps).relay.room, passId)
  }

  // ----- a pass whose token outlives the alarm comes back -----

  lemma {:induction false} Chain(s: State, a: seq<Step>, b: seq<Step>)
    requires Valid(s, a) && Valid(Reached(s, a), b)
    ensures Valid(s, a + b) && Reached(s, a + b) == Reached(Reached(s, a), b)
    decreases a
  {
    if a == [] {
      assert a + b == b;
    } else {
      assert (a + b)[1..] == a[1..] + b;
      Chain(Next(s, a[0]), a[1..], b);
    }
  }

  lemma {:induction false} ThoseFewer(socks: seq<Sock>, k: Keep)
    ensures |Those(socks, k)| <= |socks|
    ensures socks != [] && !Kept(k, socks[0]) ==> |Those(socks, k)| < |socks|
  {
    if socks != [] {
      ThoseFewer(socks[1..], k);
    }
  }

  /** Every socket goes away. */
  lemma {:induction false} AllGone(s: State) returns (steps: seq<Step>)
    ensures Valid(s, steps) && Reached(s, steps) == s.(relay := s.relay.(socks := []))
    ensures forall step | step in steps :: step.Gone?
    decreases |s.relay.socks|
  {
    if s.relay.socks == [] {
      steps := [];
    } else {
      var step := Gone(s.relay.socks[0].id);
      ThoseFewer(s.relay.socks, ButId(step.sock));
      var rest := AllGone(Next(s, step));
      steps := [step] + rest;
      assert steps[1..] == rest;
    }
  }

  lemma {:induction false} NewEpoch(epochs: set<string>) returns (epoch: string)
    ensures epoch != "" && forall e | e in epochs :: |e| < |epoch|
    decreases |epochs|
  {
    if epochs == {} {
      epoch := "x";
    } else {
      var e :| e in epochs;
      var longer := NewEpoch(epochs - {e});
      epoch := longer + e;
    }
  }

  /** With nobody connected, the alarm wipes the room and its list of revocations. */
  lemma {:induction false} Wiped(s: State) returns (steps: seq<Step>)
    requires s.relay.socks == [] && s.relay.alarm.Some? && s.now <= s.relay.alarm.value
    ensures Valid(s, steps) && forall step | step in steps :: !step.Connect?
    ensures var t := Reached(s, steps);
            t.relay.room.revoked == {} && t.relay.socks == [] && t.now == s.relay.alarm.value
            && t.phones.Keys == s.phones.Keys
  {
    var epoch := NewEpoch(s.epochs);
    var tick, alarm := Tick(s.relay.alarm.value - s.now), Alarm(epoch);
    var a := Next(s, tick);
    var b := Next(a, alarm);
    steps := [tick, alarm];
    assert steps[1..] == [alarm] && [alarm][1..] == [];
    assert Valid(b, []) && Reached(b, []) == b;
    assert Valid(a, [alarm]) && Reached(a, [alarm]) == b;
  }

  /** A pass the room does not know as revoked, with a living token, joins from some phone. */
  lemma {:induction false} Joins(s: State, passId: string, exp: int, p: int) returns (steps: seq<Step>)
    requires s.relay.room.revoked == {} && p in s.phones && passId != "" && s.now < exp * 1000
    ensures Valid(s, steps) && TokensUntil(steps, passId, exp)
    ensures !NoSocket(Reached(s, steps).relay.socks, passId)
  {
    var lose, join := Lose(p), Connect(p, passId, "g", exp);
    var a := Next(s, lose);
    var b := Next(a, join);
    assert b.relay.socks[|b.relay.socks| - 1] in b.relay.socks;
    steps := [lose, join];
    assert steps[1..] == [join] && [join][1..] == [];
    assert Valid(b, []) && Reached(b, []) == b;
    assert Valid(a, [join]) && Reached(a, [join]) == b;
  }

  lemma {:induction false} ComesBack(s: State, passId: string, exp: int, p: int)
    requires p in s.phones && passId != ""
    requires s.relay.alarm.Some? && s.now <= s.relay.alarm.value < exp * 1000
    ensures !StaysOut(s, passId, exp)
  {
    var gone := AllGone(s);
    var wiped := Wiped(Reached(s, gone));
    Chain(s, gone, wiped);
    var back := Joins(Reached(s, gone + wiped), passId, exp, p);
    Chain(s, gone + wiped, back);
    assert TokensUntil(gone + wiped + back, passId, exp);
    assert !NoSocket(Reached(s, gone + wiped + back).relay.socks, passId);
  }

  /**
   * From every reachable state: after its revoke a pass stays out, whatever follows, exactly when its longest-lived
   * token expires no later than the alarm is then set. That is at least a day away, so a revoke that names no time is
   * enough for a token that ends within a day. (There is some phone `p` to come back with.)
   */
  lemma {:induction false} RevokedStaysOutIff(s: State, before: seq<Step>, step: Step, passId: string, exp: int,
                                              p: int)
    requires Init(s) && Valid(s, before) && Enabled(Reached(s, before), step)
    requires step.Say? && IsRevoke(step.body) && step.body.passId == Str(passId)
    requires p in s.phones
    ensures var t := Next(Reached(s, before), step);
            t.relay.alarm.Some? && (StaysOut(t, passId, exp) <==> exp * 1000 <= t.relay.alarm.value)
  {
    var m := Reached(s, before);
    var t := Next(m, step);
    RunConsistent(s, before);
    StepConsistent(m, step);
    RevokeAlarm(m, step);
    if exp * 1000 <= t.relay.alarm.value {
      RevokePutsOut(m, step, exp * 1000);
      forall steps | Valid(t, steps) && TokensUntil(steps, passId, exp)
        ensures NoSocket(Reached(t, steps).relay.socks, passId) && NoClaim(Reached(t, steps).relay.room, passId)
      {
        RunKeepsOut(t, steps, passId, exp);
      }
    } else {
      SamePhones(s, before);
      OneStepPhones(m, step);
      ComesBack(t, passId, exp, p);
    }
  }

  /** Phones neither come nor go. */
  lemma {:induction false} SamePhones(s: State, steps: seq<Step>)
    requires Valid(s, steps)
    ensures Reached(s, steps).phones.Keys == s.phones.Keys
    decreases steps
  {
    if steps != [] {
      OneStepPhones(s, steps[0]);
      SamePhones(Next(s, steps[0]), steps[1..]);
    }
  }

  lemma {:induction false} OneStepPhones(s: State, step: Step)
    requires Enabled(s, step)
    ensures Next(s, step).phones.Keys == s.phones.Keys
  {
  }
}
