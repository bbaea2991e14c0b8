/** One code held in view is sent once. */
module OneCode {
  import opened Common
  import opened ScanRules

  /** The desk shows an answer that Retry can send again. */
  predicate RetryShown(s: Desk) {
    s.overlayOpen && s.canRetry
  }

  /** A desk that has only this code in hand, read last at `last`. */
  predicate InHand(s: Desk, key: string, last: int) {
    && (s.activeKey.Some? ==> s.activeKey.value == key)
    && (s.busy || s.overlayOpen ==> s.activeKey == Some(key))
    && (s.overlayAuto ==> s.overlayOpen)
    && (s.busy ==> !s.overlayOpen)
    && |s.inflight| == (if s.busy then 1 else 0)
    && (forall i | 0 <= i < |s.inflight| :: s.inflight[i].key == key)
    && (RetryShown(s) && s.retryScan.Some? ==> s.retryScan.value.key == key)
    && key in s.seen && last <= s.seen[key]
  }

  /** A desk that sends this code when it is read: free, or showing another code's answer that clears itself. */
  predicate Ready(s: Desk, key: string, now: int) {
    && ((!s.busy && !s.overlayOpen && !s.overlayAuto) || Replaceable(s, key))
    && (key in s.seen ==> now - s.seen[key] >= SEEN_WINDOW_MS)
  }

  /**
   * Camera reads of one code, each soon after the last and with no panel open; between them any answers, dismissals
   * and taps on Retry.
   */
  predicate HeldInView(es: seq<Event>, key: string, last: int, clock: int)
    decreases es
  {
    es == [] ||
    (var e := es[0];
     && (e.Camera? || e.Outcome? || e.Dismiss? || e.Retry?)
     && clock <= TimeOf(e, clock)
     && (e.Camera? ==> e.key == key && !e.panel && e.now - last < SEEN_WINDOW_MS)
     && HeldInView(es[1..], key, if e.Camera? then e.now else last, TimeOf(e, clock)))
  }

  /** How many scans reads caused. */
  function ReadSends(s: Desk, es: seq<Event>): int
    requires Valid(s, es, true)
    decreases es
  {
    if es == [] then 0
    else (if es[0].Camera? && Step(s, es[0], true).sent.Some? then 1 else 0) +
         ReadSends(Step(s, es[0], true).desk, es[1..])
  }

  lemma {:induction false} PruneKeepsNow(seen: map<string, int>, key: string, now: int)
    ensures var after := Prune(seen[key := now], now - RETRY_REUSE_MS); key in after && after[key] == now
  {
  }

  lemma {:induction false} ReadInHand(s: Desk, key: string, last: int, now: int, newId: string)
    requires InHand(s, key, last) && last <= now && now - last < SEEN_WINDOW_MS
    ensures var after := CameraRead(s, key, now, newId, false, true);
            after.sent.None? && InHand(after.desk, key, now)
  {
    PruneKeepsNow(s.seen, key, now);
  }

  lemma {:induction false} StaysInHand(s: Desk, e: Event, key: string, last: int, clock: int)
    requires InHand(s, key, last) && Enabled(s, e) && last <= clock <= TimeOf(e, clock)
    requires e.Camera? || e.Outcome? || e.Dismiss? || e.Retry?
    requires e.Camera? ==> e.key == key && !e.panel && e.now - last < SEEN_WINDOW_MS
    ensures InHand(Step(s, e, true).desk, key, if e.Camera? then e.now else last)
    ensures e.Camera? ==> Step(s, e, true).sent.None?
  {
    if e.Camera? {
      ReadInHand(s, key, last, e.now, e.newId);
    }
  }

  lemma {:induction false} NoMore(s: Desk, es: seq<Event>, key: string, last: int, clock: int)
    requires InHand(s, key, last) && Valid(s, es, true) && last <= clock && HeldInView(es, key, last, clock)
    ensures ReadSends(s, es) == 0
    decreases es
  {
    if es != [] {
      StaysInHand(s, es[0], key, last, clock);
      NoMore(Step(s, es[0], true).desk, es[1..], key, if es[0].Camera? then es[0].now else last,
             TimeOf(es[0], clock));
    }
  }

  /** The first read is sent, over whatever the desk held of other codes. */
  lemma {:induction false} FirstRead(s: Desk, key: string, now: int, newId: string)
    requires Ready(s, key, now)
    ensures var after := CameraRead(s, key, now, newId, false, true);
            && after.sent == Some(ToSend(s, key, now, newId))
            && after.desk.inflight == s.inflight + [ToSend(s, key, now, newId)]
            && (s.inflight == [] ==> InHand(after.desk, key, now))
            && after.desk.busy && !after.desk.overlayOpen && after.desk.activeKey == Some(key)
            && key in after.desk.seen && after.desk.seen[key] == now
  {
    var free := if Replaceable(s, key) then Dismissed(s, now) else s;
    PruneKeepsNow(free.seen, key, now);
  }

  /** However the answers and dismissals fall between the reads, they cause exactly one scan: the first one's. */
  lemma {:induction false} SentOnce(s: Desk, es: seq<Event>, key: string)
    requires es != [] && es[0].Camera? && es[0].key == key && !es[0].panel
    requires Ready(s, key, es[0].now) && s.inflight == [] && Valid(s, es, true)
    requires HeldInView(es[1..], key, es[0].now, es[0].now)
    ensures Step(s, es[0], true).sent == Some(ToSend(s, key, es[0].now, es[0].newId))
    ensures ReadSends(s, es) == 1
  {
    FirstRead(s, key, es[0].now, es[0].newId);
    NoMore(Step(s, es[0], true).desk, es[1..], key, es[0].now, es[0].now);
  }

  // ----- with another scan's answer on its way -----

  /** Reads of one code from `s` on cause one scan, whatever falls between. */
  ghost predicate SentOnceFrom(s: Desk, key: string, now: int, newId: string) {
    forall es | Valid(s, [Camera(key, now, newId, false)] + es, true) && HeldInView(es, key, now, now) ::
      ReadSends(s, [Camera(key, now, newId, false)] + es) == 1
  }

  /** Two answers come and the first is dismissed: the second is shown as no code's; reads behind it leave no trace. */
  function Behind(key: string, now: int, newId: string): seq<Event> {
    [Outcome(0, Unheard(false)), Dismiss(now), Outcome(0, Unheard(false)),
     Camera(key, now + 1_000, newId, false), Dismiss(now + 1_000), Camera(key, now + 1_500, newId, false)]
  }

  lemma {:induction false} BehindHeld(key: string, now: int, newId: string)
    ensures HeldInView(Behind(key, now, newId), key, now, now)
  {
    var es := Behind(key, now, newId);
    assert HeldInView(es[5..], key, now + 1_000, now + 1_000) by {
      assert es[5..][1..] == [];
    }
    assert es[4..][1..] == es[5..] && es[3..][1..] == es[4..];
    assert HeldInView(es[3..], key, now, now);
    assert es[2..][1..] == es[3..] && es[1..][1..] == es[2..];
    assert HeldInView(es[1..], key, now, now);
  }

  lemma {:induction false} OneStep(s: Desk, e: Event, es: seq<Event>)
    requires Enabled(s, e) && Valid(Step(s, e, true).desk, es, true)
    ensures Valid(s, [e] + es, true)
    ensures ReadSends(s, [e] + es) ==
            (if e.Camera? && Step(s, e, true).sent.Some? then 1 else 0) + ReadSends(Step(s, e, true).desk, es)
  {
    FirstThen(s, e, es, true);
    assert ([e] + es)[1..] == es;
  }

  /** A desk on which the read waits, with another answer on its way. */
  predicate Doubled(s: Desk, key: string, now: int) {
    && s.busy && !s.overlayOpen && s.activeKey == Some(key) && |s.inflight| >= 2
    && key in s.seen && s.seen[key] == now
  }

  lemma {:induction false} BehindSends(s: Desk, key: string, now: int, newId: string)
    requires Doubled(s, key, now)
    ensures Valid(s, Behind(key, now, newId), true) && ReadSends(s, Behind(key, now, newId)) == 1
  {
    var es := Behind(key, now, newId);
    var a := Settle(s, 0, Unheard(false));
    assert |a.inflight| >= 1;
    var b := Dismissed(a, now);
    assert b.seen[key] == now && b.activeKey.None?;
    var c := Settle(b, 0, Unheard(false));
    var read := Step(c, es[3], true);
    assert read == After(c, None);
    var d := Dismissed(c, now + 1_000);
    assert d.seen == c.seen;
    assert Step(d, es[5], true).sent.Some?;
    assert Valid(Step(d, es[5], true).desk, [], true);
    OneStep(d, es[5], []);
    OneStep(c, es[4], [es[5]] + []);
    OneStep(c, es[3], [es[4]] + ([es[5]] + []));
    OneStep(b, es[2], [es[3]] + ([es[4]] + ([es[5]] + [])));
    OneStep(a, es[1], [es[2]] + ([es[3]] + ([es[4]] + ([es[5]] + []))));
    OneStep(s, es[0], [es[1]] + ([es[2]] + ([es[3]] + ([es[4]] + ([es[5]] + [])))));
    assert es == [es[0]] + ([es[1]] + ([es[2]] + ([es[3]] + ([es[4]] + ([es[5]] + [])))));
  }

  /** Once is all exactly when no other scan's answer is on its way at the first read. */
  lemma {:induction false} SentOnceIff(s: Desk, key: string, now: int, newId: string)
    requires Ready(s, key, now)
    ensures SentOnceFrom(s, key, now, newId) <==> s.inflight == []
  {
    var read := Camera(key, now, newId, false);
    FirstRead(s, key, now, newId);
    if s.inflight == [] {
      forall es | Valid(s, [read] + es, true) && HeldInView(es, key, now, now)
        ensures ReadSends(s, [read] + es) == 1
      {
        assert ([read] + es)[1..] == es;
        SentOnce(s, [read] + es, key);
      }
    } else {
      var es := Behind(key, now, newId);
      var next := Step(s, read, true).desk;
      BehindHeld(key, now, newId);
      BehindSends(next, key, now, newId);
      OneStep(s, read, es);
      assert Valid(s, [read] + es, true) && ReadSends(s, [read] + es) == 2;
    }
  }
}
