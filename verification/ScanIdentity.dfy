/** Exactly when a code that got no answer keeps its scan id. */
module ScanIdentity {
  import opened Common
  import opened ScanRules

  // ----- what a desk holds about a sent scan -----

  /** The scan went unheard: the next sending finds it. */
  predicate Known(s: Desk, p: Pending) {
    p.key in s.failed && s.failed[p.key] == p
  }

  /** What an earlier attempt left of the code, if anything, is too old to be sent again. */
  predicate Stale(s: Desk, p: Pending) {
    p.key in s.failed ==> p.firstAt - s.failed[p.key].firstAt >= RETRY_REUSE_MS
  }

  /** Of this code, nothing but `p` is on its way. */
  predicate OnlyAs(inflight: seq<Pending>, p: Pending) {
    forall i | 0 <= i < |inflight| && inflight[i].key == p.key :: inflight[i] == p
  }

  /** `p` was sent, and has had no answer: it is on its way, or it went unheard. */
  predicate Outstanding(s: Desk, p: Pending) {
    && OnlyAs(s.inflight, p)
    && (Known(s, p) || (Stale(s, p) && p in s.inflight))
    && (Known(s, p) && s.retryScan.Some? && s.retryScan.value.key == p.key ==> s.retryScan.value == p)
  }

  /** No other answer can come first: `p` went unheard already, or the desk waits for it alone. */
  predicate Safe(s: Desk, p: Pending) {
    Known(s, p) || (s.busy && forall q | q in s.inflight :: q == p)
  }

  /** Retry is tapped for another scan while the desk waits for `p`'s first answer. */
  predicate UnsafeTap(s: Desk, p: Pending) {
    s.busy && !Known(s, p) && s.retryScan.Some? && s.retryScan.value != p
  }

  // ----- runs in which the code stays unanswered -----

  /** No end but silence for the code, its scan not undone, and its readings within two minutes of the first sending. */
  predicate Unanswered(s: Desk, e: Event, p: Pending) {
    match e
    case Outcome(i, how) => 0 <= i < |s.inflight| && (s.inflight[i].key == p.key ==> how.Unheard?)
    case Undone(scanId) => scanId != p.scanId
    case Camera(key, now, _, _) => key == p.key ==> 0 <= now - p.firstAt < RETRY_REUSE_MS
    case Typed(key, now, _) => key == p.key ==> 0 <= now - p.firstAt < RETRY_REUSE_MS
    case _ => true
  }

  predicate Allowed(s: Desk, e: Event, p: Pending) {
    Enabled(s, e) && Unanswered(s, e, p) && (e.Retry? ==> !UnsafeTap(s, p))
  }

  predicate AllAllowed(s: Desk, es: seq<Event>, p: Pending)
    decreases es
  {
    es == [] || (Allowed(s, es[0], p) && AllAllowed(Step(s, es[0], true).desk, es[1..], p))
  }

  predicate SentAs(sent: Option<Pending>, p: Pending) {
    sent.Some? && sent.value.key == p.key ==> sent.value == p
  }

  predicate AllSentAs(s: Desk, es: seq<Event>, p: Pending)
    requires AllAllowed(s, es, p)
    decreases es
  {
    es == [] || (SentAs(Step(s, es[0], true).sent, p) && AllSentAs(Step(s, es[0], true).desk, es[1..], p))
  }

  /** Whatever follows, the code goes out only as `p`. */
  ghost predicate KeepsId(s: Desk, p: Pending) {
    forall es | AllAllowed(s, es, p) :: AllSentAs(s, es, p)
  }

  // ----- a safe desk stays safe -----

  predicate Good(s: Desk, p: Pending) {
    Outstanding(s, p) && Safe(s, p)
  }

  predicate GoodAfter(after: After, p: Pending) {
    Good(after.desk, p) && SentAs(after.sent, p)
  }

  lemma {:induction false} MoreOnTheWay(inflight: seq<Pending>, q: Pending)
    ensures forall x :: x in inflight + [q] <==> x in inflight || x == q
  {
  }

  /** Sending what is not this code in another guise, from a desk that is not busy or has heard of `p`. */
  lemma {:induction false} SendGood(s: Desk, q: Pending, p: Pending)
    requires Good(s, p) && (q.key == p.key ==> q == p) && (Known(s, p) || q == p)
    ensures GoodAfter(Sending(s, q), p)
  {
    MoreOnTheWay(s.inflight, q);
  }

  lemma {:induction false} DismissGood(s: Desk, now: int, p: Pending)
    requires Good(s, p)
    ensures Good(Dismissed(s, now), p)
    ensures Known(Dismissed(s, now), p) == Known(s, p) && Dismissed(s, now).retryScan == s.retryScan
    ensures Dismissed(s, now).busy == s.busy
  {
  }

  lemma {:induction false} SeenGood(s: Desk, seen: map<string, int>, p: Pending)
    requires Good(s, p)
    ensures Good(s.(seen := seen), p) && Known(s.(seen := seen), p) == Known(s, p)
  {
  }

  /** A read that finds the desk free finds `p` unheard. */
  lemma {:induction false} FreshGood(s: Desk, key: string, now: int, newId: string, p: Pending)
    requires Good(s, p) && !s.busy && (key == p.key ==> 0 <= now - p.firstAt < RETRY_REUSE_MS)
    ensures GoodAfter(FreshRead(s, key, now, newId, true), p)
  {
    var seen := Prune(s.seen[key := now], now - RETRY_REUSE_MS);
    SeenGood(s, seen, p);
    SendGood(s.(seen := seen), ToSend(s, key, now, newId), p);
  }

  lemma {:induction false} CameraGood(s: Desk, key: string, now: int, newId: string, panel: bool, p: Pending)
    requires Good(s, p) && (key == p.key ==> 0 <= now - p.firstAt < RETRY_REUSE_MS)
    ensures GoodAfter(CameraRead(s, key, now, newId, panel, true), p)
  {
    if !panel {
      if Replaceable(s, key) {
        DismissGood(s, now, p);
        FreshGood(Dismissed(s, now), key, now, newId, p);
      } else if s.busy || s.overlayOpen {
        SeenGood(s, s.seen[key := now], p);
      } else {
        FreshGood(s, key, now, newId, p);
      }
    }
  }

  lemma {:induction false} FewerOnTheWay(inflight: seq<Pending>, i: int, p: Pending)
    requires 0 <= i < |inflight|
    ensures forall q | q in Without(inflight, i) :: q in inflight
    ensures OnlyAs(inflight, p) ==> OnlyAs(Without(inflight, i), p)
    ensures p in inflight && inflight[i] != p ==> p in Without(inflight, i)
  {
    var rest := Without(inflight, i);
    assert forall j | 0 <= j < |rest| :: rest[j] == if j < i then inflight[j] else inflight[j + 1];
    if p in inflight && inflight[i] != p {
      var j :| 0 <= j < |inflight| && inflight[j] == p;
      assert rest[if j < i then j else j - 1] == p;
    }
  }

  lemma {:induction false} SettleGood(s: Desk, i: int, how: How, p: Pending)
    requires Good(s, p) && 0 <= i < |s.inflight| && (s.inflight[i].key == p.key ==> how.Unheard?)
    ensures Good(Settle(s, i, how), p)
  {
    FewerOnTheWay(s.inflight, i, p);
    assert s.inflight[i] in s.inflight;
  }

  lemma {:induction false} RetryGood(s: Desk, now: int, p: Pending)
    requires Good(s, p) && !UnsafeTap(s, p)
    ensures GoodAfter(RetryTapped(s, now), p)
  {
    DismissGood(s, now, p);
    if s.retryScan.Some? {
      SendGood(Dismissed(s, now), s.retryScan.value, p);
    }
  }

  lemma {:induction false} StepGood(s: Desk, e: Event, p: Pending)
    requires Good(s, p) && Allowed(s, e, p)
    ensures GoodAfter(Step(s, e, true), p)
  {
    match e
    case Camera(key, now, newId, panel) => CameraGood(s, key, now, newId, panel, p);
    case Typed(key, now, newId) =>
      if !s.busy {
        SendGood(s, ToSend(s, key, now, newId), p);
      }
    case Outcome(i, how) => SettleGood(s, i, how, p);
    case Dismiss(now) => DismissGood(s, now, p);
    case Retry(now) => RetryGood(s, now, p);
    case Undone(_) =>
  }

  lemma {:induction false} RunGood(s: Desk, es: seq<Event>, p: Pending)
    requires Good(s, p) && AllAllowed(s, es, p)
    ensures AllSentAs(s, es, p)
    decreases es
  {
    if es != [] {
      StepGood(s, es[0], p);
      RunGood(Step(s, es[0], true).desk, es[1..], p);
    }
  }

  // ----- an unsafe desk does not -----

  /** A free desk that has not heard of `p` sends the code again under any id it is given. */
  lemma {:induction false} FreeDeskForgets(s: Desk, p: Pending, newId: string)
    requires Outstanding(s, p) && !Known(s, p) && !s.busy
    ensures var again := [Typed(p.key, p.firstAt, newId)];
            && AllAllowed(s, again, p)
            && Step(s, again[0], true).sent == Some(Pending(p.key, newId, p.firstAt))
            && (newId != p.scanId ==> !AllSentAs(s, again, p))
  {
    assert [Typed(p.key, p.firstAt, newId)][1..] == [];
  }

  /** If another scan's answer is on its way too, it may come first, and free the desk. */
  lemma {:induction false} OtherAnswerFirst(s: Desk, p: Pending, i: int)
    requires Outstanding(s, p) && !Known(s, p) && 0 <= i < |s.inflight| && s.inflight[i] != p
    ensures Allowed(s, Outcome(i, Unheard(false)), p)
    ensures var freed := Settle(s, i, Unheard(false));
            Outstanding(freed, p) && !Known(freed, p) && !freed.busy
  {
    FewerOnTheWay(s.inflight, i, p);
  }

  lemma {:induction false} OneMoreEvent(s: Desk, e: Event, es: seq<Event>, p: Pending)
    requires Allowed(s, e, p) && AllAllowed(Step(s, e, true).desk, es, p)
    ensures AllAllowed(s, [e] + es, p)
    ensures AllSentAs(s, [e] + es, p) ==> AllSentAs(Step(s, e, true).desk, es, p)
  {
    assert ([e] + es)[1..] == es;
  }

  lemma {:induction false} UnsafeForgets(s: Desk, p: Pending, newId: string)
    requires Outstanding(s, p) && !Safe(s, p) && newId != p.scanId
    ensures !KeepsId(s, p)
  {
    var again := [Typed(p.key, p.firstAt, newId)];
    if !s.busy {
      FreeDeskForgets(s, p, newId);
    } else {
      var q :| q in s.inflight && q != p;
      var i :| 0 <= i < |s.inflight| && s.inflight[i] == q;
      var first := Outcome(i, Unheard(false));
      OtherAnswerFirst(s, p, i);
      FreeDeskForgets(Settle(s, i, Unheard(false)), p, newId);
      OneMoreEvent(s, first, again, p);
      assert AllAllowed(s, [first] + again, p) && !AllSentAs(s, [first] + again, p);
    }
  }

  lemma OtherId(id: string)
    ensures id + "x" != id
  {
    assert |id + "x"| == |id| + 1;
  }

  // ----- exactly when -----

  /**
   * A code that was sent and not answered keeps its id, whatever follows, exactly when its scan went unheard already or
   * the desk waits for it alone.
   */
  lemma {:induction false} IdKeptIff(s: Desk, p: Pending)
    requires Outstanding(s, p)
    ensures KeepsId(s, p) <==> Safe(s, p)
  {
    if Safe(s, p) {
      forall es | AllAllowed(s, es, p)
        ensures AllSentAs(s, es, p)
      {
        RunGood(s, es, p);
      }
    } else {
      OtherId(p.scanId);
      UnsafeForgets(s, p, p.scanId + "x");
    }
  }

  /**
   * A tap on Retry leaves it so exactly when it is not a tap for another scan, made while the desk waits for this
   * one's first answer.
   */
  lemma {:induction false} RetryTapIff(s: Desk, now: int, p: Pending)
    requires Outstanding(s, p) && Safe(s, p) && Enabled(s, Retry(now))
    ensures var after := Step(s, Retry(now), true);
            SentAs(after.sent, p) && KeepsId(after.desk, p) <==> !UnsafeTap(s, p)
  {
    var after := Step(s, Retry(now), true);
    if UnsafeTap(s, p) {
      if s.retryScan.value.key != p.key {
        UnsafeTapLeaves(s, now, p);
        IdKeptIff(after.desk, p);
      }
    } else {
      RetryGood(s, now, p);
      IdKeptIff(after.desk, p);
    }
  }

  lemma {:induction false} UnsafeTapLeaves(s: Desk, now: int, p: Pending)
    requires Outstanding(s, p) && Safe(s, p) && UnsafeTap(s, p) && s.retryScan.value.key != p.key
    ensures var t := RetryTapped(s, now).desk;
            && Outstanding(t, p) && !Safe(t, p) && !Known(t, p)
            && t.inflight == s.inflight + [s.retryScan.value]
  {
    MoreOnTheWay(s.inflight, s.retryScan.value);
    assert s.retryScan.value in RetryTapped(s, now).desk.inflight;
  }

  /**
   * After any such tap for another code: that scan's answer comes first, and this code, typed again, goes out under
   * whatever id it is then given.
   */
  lemma {:induction false} UnsafeTapForgets(s: Desk, now: int, p: Pending, newId: string)
    requires Outstanding(s, p) && Safe(s, p) && UnsafeTap(s, p) && s.retryScan.value.key != p.key
    ensures var tapped := RetryTapped(s, now).desk;
            var freed := Settle(tapped, |s.inflight|, Unheard(false));
            && p in freed.inflight
            && Step(freed, Typed(p.key, p.firstAt, newId), true).sent == Some(Pending(p.key, newId, p.firstAt))
  {
    UnsafeTapLeaves(s, now, p);
    var tapped := RetryTapped(s, now).desk;
    OtherAnswerFirst(tapped, p, |s.inflight|);
    FreeDeskForgets(Settle(tapped, |s.inflight|, Unheard(false)), p, newId);
  }

  // ----- from the first sending -----

  /** A sending that reuses no earlier attempt, of a code not on its way already. */
  predicate FirstSending(s: Desk, e: Event, p: Pending) {
    && Enabled(s, e)
    && (e.Camera? || e.Typed?)
    && Step(s, e, true).sent == Some(p)
    && p.firstAt == TimeOf(e, 0)
    && Stale(s, p)
    && forall q | q in s.inflight :: q.key != p.key
  }

  lemma {:induction false} FirstOutstanding(s: Desk, e: Event, p: Pending)
    requires FirstSending(s, e, p)
    ensures var next := Step(s, e, true).desk;
            Outstanding(next, p) && next.busy && next.inflight == s.inflight + [p] && !Known(next, p)
  {
    MoreOnTheWay(s.inflight, p);
    assert forall i | 0 <= i < |s.inflight| :: s.inflight[i] in s.inflight;
  }

  /** A code's first sending fixes its id exactly when no other scan's answer is on its way. */
  lemma {:induction false} FirstSendingIff(s: Desk, e: Event, p: Pending)
    requires FirstSending(s, e, p)
    ensures KeepsId(Step(s, e, true).desk, p) <==> s.inflight == []
  {
    var next := Step(s, e, true).desk;
    FirstOutstanding(s, e, p);
    IdKeptIff(next, p);
    MoreOnTheWay(s.inflight, p);
    if s.inflight != [] {
      assert s.inflight[0] in s.inflight;
    }
  }

  // ----- a desk where it is lost -----

  /** A code typed while another's failure is on screen, before Retry is tapped for that one. */
  function FailureOnScreen(): Desk {
    var j := Pending("J", "j", 0);
    Desk(true, true, false, true, Some("K"), map[], map["J" := j], Some(j), [Pending("K", "x", 1)])
  }

  lemma {:induction false} GettingThere()
    ensures var es := [Typed("J", 0, "j"), Outcome(0, Unheard(false)), Typed("K", 1, "x")];
            Valid(NEW_DESK, es, true) && Reached(NEW_DESK, es, true) == FailureOnScreen()
  {
    var j := Pending("J", "j", 0);
    var a := Step(NEW_DESK, Typed("J", 0, "j"), true).desk;
    assert a == NEW_DESK.(busy := true, activeKey := Some("J"), inflight := [j]);
    assert Without([j], 0) == [];
    var b := Step(a, Outcome(0, Unheard(false)), true).desk;
    assert b == Desk(false, true, false, true, Some("J"), map[], map["J" := j], Some(j), []);
    var e1, e2, e3 := Typed("J", 0, "j"), Outcome(0, Unheard(false)), Typed("K", 1, "x");
    assert Step(b, e3, true).desk == FailureOnScreen();
    FirstThen(b, e3, [], true);
    FirstThen(a, e2, [e3] + [], true);
    FirstThen(NEW_DESK, e1, [e2] + ([e3] + []), true);
    assert [e1, e2, e3] == [e1] + ([e2] + ([e3] + []));
  }

  /** There, Retry costs the code its id. */
  lemma {:induction false} RetryWhileBusyForgets()
    ensures Enabled(FailureOnScreen(), Retry(2))
    ensures !KeepsId(Step(FailureOnScreen(), Retry(2), true).desk, Pending("K", "x", 1))
  {
    var p := Pending("K", "x", 1);
    assert Outstanding(FailureOnScreen(), p) && UnsafeTap(FailureOnScreen(), p);
    RetryTapIff(FailureOnScreen(), 2, p);
    assert SentAs(Step(FailureOnScreen(), Retry(2), true).sent, p);
  }
}
