/** Pruning is invisible: with and without it, every event sends the same scan. */
module ScanPruning {
  import opened ScanRules

  /** The pruned map misses only entries too old to matter from `now` on. */
  predicate Forgets(pruned: map<string, int>, kept: map<string, int>, now: int) {
    && (forall k | k in pruned :: k in kept && pruned[k] == kept[k])
    && (forall k | k in kept && kept[k] >= now - RETRY_REUSE_MS :: k in pruned)
  }

  predicate Alike(a: Desk, b: Desk, now: int) {
    a == b.(seen := a.seen) && Forgets(a.seen, b.seen, now)
  }

  lemma {:induction false} SeenAlike(a: Desk, b: Desk, key: string, now: int)
    requires Alike(a, b, now)
    ensures Alike(a.(seen := a.seen[key := now]), b.(seen := b.seen[key := now]), now)
    ensures (key in a.seen && now - a.seen[key] < SEEN_WINDOW_MS) ==
            (key in b.seen && now - b.seen[key] < SEEN_WINDOW_MS)
  {
  }

  lemma {:induction false} PruneAlike(a: Desk, b: Desk, now: int)
    requires Alike(a, b, now)
    ensures Alike(a.(seen := Prune(a.seen, now - RETRY_REUSE_MS)), b, now)
  {
  }

  lemma {:induction false} DismissedAlike(a: Desk, b: Desk, now: int)
    requires Alike(a, b, now)
    ensures Alike(Dismissed(a, now), Dismissed(b, now), now)
  {
    if a.activeKey.Some? {
      SeenAlike(a, b, a.activeKey.value, now);
    }
  }

  lemma {:induction false} SendingAlike(a: Desk, b: Desk, p: Pending, now: int)
    requires Alike(a, b, now)
    ensures Alike(Sending(a, p).desk, Sending(b, p).desk, now) && Sending(a, p).sent == Sending(b, p).sent
  {
  }

  predicate SameAfter(x: After, y: After, now: int) {
    x.sent == y.sent && Alike(x.desk, y.desk, now)
  }

  lemma {:induction false} FreshAlike(a: Desk, b: Desk, key: string, now: int, newId: string)
    requires Alike(a, b, now)
    ensures SameAfter(FreshRead(a, key, now, newId, true), FreshRead(b, key, now, newId, false), now)
  {
    SeenAlike(a, b, key, now);
    var x, y := a.(seen := a.seen[key := now]), b.(seen := b.seen[key := now]);
    PruneAlike(x, y, now);
    SendingAlike(x.(seen := Prune(x.seen, now - RETRY_REUSE_MS)), y, ToSend(a, key, now, newId), now);
  }

  lemma {:induction false} CameraAlike(a: Desk, b: Desk, key: string, now: int, newId: string, panel: bool)
    requires Alike(a, b, now)
    ensures SameAfter(CameraRead(a, key, now, newId, panel, true), CameraRead(b, key, now, newId, panel, false), now)
  {
    if !panel {
      if Replaceable(a, key) {
        DismissedAlike(a, b, now);
        FreshAlike(Dismissed(a, now), Dismissed(b, now), key, now, newId);
      } else if a.busy || a.overlayOpen {
        SeenAlike(a, b, key, now);
      } else {
        FreshAlike(a, b, key, now, newId);
      }
    }
  }

  lemma {:induction false} SettleAlike(a: Desk, b: Desk, i: int, how: How, now: int)
    requires Alike(a, b, now) && 0 <= i < |a.inflight|
    ensures Alike(Settle(a, i, how), Settle(b, i, how), now)
  {
  }

  lemma {:induction false} StepAlike(a: Desk, b: Desk, e: Event, before: int)
    requires Alike(a, b, before) && Enabled(a, e) && before <= TimeOf(e, before)
    ensures Enabled(b, e)
    ensures SameAfter(Step(a, e, true), Step(b, e, false), TimeOf(e, before))
  {
    var now := TimeOf(e, before);
    match e
    case Camera(key, _, newId, panel) => CameraAlike(a, b, key, now, newId, panel);
    case Typed(key, _, newId) => SendingAlike(a, b, ToSend(a, key, now, newId), now);
    case Outcome(i, how) => SettleAlike(a, b, i, how, now);
    case Dismiss(_) => DismissedAlike(a, b, now);
    case Retry(_) =>
      DismissedAlike(a, b, now);
      if a.retryScan.Some? {
        SendingAlike(Dismissed(a, now), Dismissed(b, now), a.retryScan.value, now);
      }
    case Undone(_) =>
  }

  /** The pruned scanner and one that never forgets send the same scans under the same ids, event by event. */
  lemma {:induction false} PruneInvisible(a: Desk, b: Desk, es: seq<Event>, before: int)
    requires Alike(a, b, before) && Valid(a, es, true) && Clocked(es, before)
    ensures Valid(b, es, false)
    ensures Sends(a, es, true) == Sends(b, es, false)
    decreases es
  {
    if es != [] {
      StepAlike(a, b, es[0], before);
      PruneInvisible(Step(a, es[0], true).desk, Step(b, es[0], false).desk, es[1..], TimeOf(es[0], before));
    }
  }

  lemma {:induction false} PruneInvisibleFromStart(es: seq<Event>, start: int)
    requires Valid(NEW_DESK, es, true) && Clocked(es, start)
    ensures Valid(NEW_DESK, es, false) && Sends(NEW_DESK, es, true) == Sends(NEW_DESK, es, false)
  {
    PruneInvisible(NEW_DESK, NEW_DESK, es, start);
  }
}
