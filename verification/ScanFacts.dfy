/** What the scanner does with each event. */
module ScanFacts {
  import opened Common
  import opened ScanRules

  // ----- reads -----

  /** An answer is on its way or on screen, and does not give way to this code. */
  predicate Held(s: Desk, key: string) {
    s.busy || (s.overlayOpen && (!s.overlayAuto || s.activeKey == Some(key)))
  }

  /** This code was read, or its answer dismissed, within the last second and a half. */
  predicate JustSeen(s: Desk, key: string, now: int) {
    key in s.seen && now - s.seen[key] < 1_500
  }

  /** The id and first time of an attempt up to two minutes old that got no answer; else new ones. */
  function Again(s: Desk, key: string, now: int, newId: string): Pending {
    if key in s.failed && now < s.failed[key].firstAt + 120_000
    then Pending(key, s.failed[key].scanId, s.failed[key].firstAt) else Pending(key, newId, now)
  }

  /** A scan was sent: the desk waits for its answer, with whatever else is on its way. */
  predicate Waits(s: Desk, next: Desk, p: Pending) {
    next.busy && next.activeKey == Some(p.key) && next.inflight == s.inflight + [p]
  }

  predicate Screen(s: Desk, open: bool, auto: bool, retry: bool) {
    s.overlayOpen == open && s.overlayAuto == auto && s.canRetry == retry
  }

  /**
   * A camera read is sent exactly when no panel covers the picture, no answer holds it back, and it was not seen just
   * now: under the id of a recent silent attempt, if there is one. An answer it replaces is gone.
   */
  lemma {:induction false} CameraIff(s: Desk, key: string, now: int, newId: string, panel: bool)
    requires s.overlayAuto ==> s.overlayOpen
    ensures var after := Step(s, Camera(key, now, newId, panel), true);
            && (after.sent.Some? <==> !panel && !Held(s, key) && !JustSeen(s, key, now))
            && (after.sent.Some? ==>
                  after.sent.value == Again(s, key, now, newId) && Waits(s, after.desk, after.sent.value))
            && (after.sent.None? ==> after.desk.busy == s.busy && after.desk.inflight == s.inflight)
            && after.desk.failed == s.failed && after.desk.retryScan == s.retryScan
            && (if panel || Held(s, key)
                then after.desk.activeKey == s.activeKey && Screen(after.desk, s.overlayOpen, s.overlayAuto, s.canRetry)
                else !after.desk.overlayOpen && (s.overlayOpen ==> Screen(after.desk, false, false, false)))
  {
  }

  /** A map of two hundred forgets exactly what is older than it is told to; a smaller one forgets nothing. */
  lemma {:induction false} PruneIff(seen: map<string, int>, olderThan: int, k: string)
    ensures var left := Prune(seen, olderThan);
            && (k in left <==> k in seen && (|seen| < 200 || olderThan <= seen[k]))
            && (k in left ==> left[k] == seen[k])
  {
  }

  /**
   * What the read leaves seen: of an answer it replaces, that code; then itself, less what is more than two minutes
   * old. A read that is held back counts if the answer is its own code's, and one behind a panel never.
   */
  lemma {:induction false} CameraSeen(s: Desk, key: string, now: int, newId: string, panel: bool)
    requires s.overlayAuto ==> s.overlayOpen
    ensures var seen := Step(s, Camera(key, now, newId, panel), true).desk.seen;
            var closed := if s.overlayOpen && s.activeKey.Some? then s.seen[s.activeKey.value := now] else s.seen;
            && (panel ==> seen == s.seen)
            && (!panel && Held(s, key) ==> seen == if s.activeKey == Some(key) then s.seen[key := now] else s.seen)
            && (!panel && !Held(s, key) ==> seen == Prune(closed[key := now], now - 120_000))
  {
  }

  /** A code from the handheld or the keyboard is sent at once, or refused while an answer is on its way. */
  lemma {:induction false} TypedIff(s: Desk, key: string, now: int, newId: string)
    ensures var after := Step(s, Typed(key, now, newId), true);
            && (after.sent.Some? <==> !s.busy)
            && (after.sent.Some? ==>
                  && after.sent.value == Again(s, key, now, newId) && Waits(s, after.desk, after.sent.value)
                  && after.desk.seen == s.seen && after.desk.failed == s.failed && after.desk.retryScan == s.retryScan
                  && Screen(after.desk, s.overlayOpen, s.overlayAuto, s.canRetry))
            && (after.sent.None? ==> after.desk == s)
  {
  }

  // ----- answers -----

  /** Something is shown, with the chance to try again only after silence (not after being told to slow down). */
  predicate Shows(s: Desk, how: How) {
    match how
    case Answered(auto) => Screen(s, true, auto, false)
    case NoResult => Screen(s, true, false, false)
    case Early(auto) => Screen(s, true, auto, false)
    case Refused => Screen(s, true, false, false)
    case Unheard(slow) => Screen(s, true, false, !slow)
    case SignedOut => true
  }

  /**
   * However a scan ends, the desk is free again and that scan is no longer on its way. After an answer its code starts
   * anew under any id it is given; after silence it keeps its id for two minutes and is what Retry sends; a phone's own
   * admit, a refusal or a sign-out leaves earlier attempts as they were.
   */
  lemma {:induction false} OutcomeIff(s: Desk, i: int, how: How, now: int, newId: string)
    requires 0 <= i < |s.inflight|
    ensures var p, next := s.inflight[i], Step(s, Outcome(i, how), true).desk;
            && !next.busy && next.inflight == s.inflight[..i] + s.inflight[i + 1..]
            && next.activeKey == s.activeKey && next.seen == s.seen
            && Shows(next, how)
            && (how.SignedOut? ==> Screen(next, s.overlayOpen, s.overlayAuto, s.canRetry))
            && Step(next, Typed(p.key, now, newId), true).sent ==
               Some(if how.Answered? || how.NoResult? then Pending(p.key, newId, now)
                    else if how.Unheard? then
                      if now < p.firstAt + 120_000 then p else Pending(p.key, newId, now)
                    else Again(s, p.key, now, newId))
            && (forall k | k != p.key :: Again(next, k, now, newId) == Again(s, k, now, newId))
            && next.retryScan == (if how.Unheard? then Some(p)
                                  else if how.Early? || how.SignedOut? then s.retryScan else None)
  {
  }

  /** A dismissed answer's code counts as read at that moment, so one still in view is not sent again at once. */
  lemma {:induction false} DismissIff(s: Desk, now: int, later: int, newId: string, panel: bool)
    requires s.overlayOpen
    ensures var next := Step(s, Dismiss(now), true).desk;
            && Screen(next, false, false, false) && next.activeKey.None?
            && next == s.(overlayOpen := false, overlayAuto := false, canRetry := false, activeKey := None,
                          seen := next.seen)
            && (s.activeKey.None? ==> next.seen == s.seen)
            && (s.activeKey.Some? ==>
                  && next.seen == s.seen[s.activeKey.value := now]
                  && (later - now < 1_500 ==>
                        Step(next, Camera(s.activeKey.value, later, newId, panel), true).sent.None?))
  {
  }

  /** Retry sends the scan that went unheard last, itself, and closes the answer. */
  lemma {:induction false} RetryIff(s: Desk, now: int)
    requires s.overlayOpen && s.canRetry
    ensures var after, closed := Step(s, Retry(now), true), Step(s, Dismiss(now), true).desk;
            && after.sent == s.retryScan
            && (s.retryScan.None? ==> after.desk == closed)
            && (s.retryScan.Some? ==>
                  && Waits(s, after.desk, s.retryScan.value)
                  && after.desk == closed.(busy := true, activeKey := after.desk.activeKey,
                                           inflight := after.desk.inflight))
  {
  }

  /** After an undo its id is not used again: a code held under it starts anew, every other is as it was. */
  lemma {:induction false} UndoneIff(s: Desk, scanId: string, key: string, now: int, newId: string)
    ensures var next := Step(s, Undone(scanId), true).desk;
            && Again(next, key, now, newId) ==
               (if key in s.failed && s.failed[key].scanId == scanId then Pending(key, newId, now)
                else Again(s, key, now, newId))
            && next == s.(failed := next.failed)
            && (Again(next, key, now, newId).scanId == scanId ==> newId == scanId)
  {
  }

  /** On every run, only an answer on screen clears itself. */
  lemma {:induction false} AutoIsShown(s: Desk, es: seq<Event>)
    requires Valid(s, es, true) && (s.overlayAuto ==> s.overlayOpen)
    ensures var t := Reached(s, es, true); t.overlayAuto ==> t.overlayOpen
    decreases es
  {
    if es != [] {
      AutoIsShown(Step(s, es[0], true).desk, es[1..]);
    }
  }
}
