/** The scanner's refs, changed step by step (src/app/door/scanner.tsx). */
module Scanner {
  import opened Common
  import opened ScanRules

  class Scanner {
    var busy: bool
    var overlayOpen: bool
    var overlayAuto: bool
    var canRetry: bool
    var activeKey: Option<string>
    var seen: map<string, int>
    var failed: map<string, Pending>
    var retryScan: Option<Pending>
    var inflight: seq<Pending>

    ghost function State(): Desk
      reads this
    {
      Desk(busy, overlayOpen, overlayAuto, canRetry, activeKey, seen, failed, retryScan, inflight)
    }

    constructor ()
      ensures State() == NEW_DESK
    {
      busy, overlayOpen, overlayAuto, canRetry, activeKey := false, false, false, false, None;
      seen, failed, retryScan, inflight := map[], map[], None, [];
    }

    method ShowAnswer(auto: bool, retry: bool)
      modifies this
      ensures State() == Show(old(State()), auto, retry)
    {
      overlayOpen, overlayAuto, canRetry := true, auto, retry;
    }

    method Close(now: int)
      modifies this
      ensures State() == Dismissed(old(State()), now)
    {
      overlayOpen, overlayAuto, canRetry := false, false, false;
      if activeKey.Some? { seen := seen[activeKey.value := now]; }
      activeKey := None;
    }

    method PruneSeen(olderThan: int)
      modifies this`seen
      ensures seen == Prune(old(seen), olderThan)
    {
      if |seen| < PRUNE_FROM { return; }
      var left, all := seen.Keys, seen;
      while left != {}
        invariant left <= all.Keys
        invariant seen == map k | k in all && (k in left || all[k] >= olderThan) :: all[k]
        decreases left
      {
        var k :| k in left;
        left := left - {k};
        if all[k] < olderThan { seen := seen - {k}; }
      }
    }

    method Send(p: Pending) returns (sent: Option<Pending>)
      modifies this
      ensures After(State(), sent) == Sending(old(State()), p)
    {
      busy, activeKey := true, Some(p.key);
      inflight := inflight + [p];
      sent := Some(p);
    }

    /** A camera read; with a panel over the camera's picture it counts for nothing. */
    method OnCamera(key: string, now: int, newId: string, panel: bool) returns (sent: Option<Pending>)
      modifies this
      ensures After(State(), sent) == Step(old(State()), Camera(key, now, newId, panel), true)
    {
      if panel { return None; }
      var mayReplace := !busy && overlayAuto && Some(key) != activeKey;
      if !mayReplace && (busy || overlayOpen) {
        if activeKey == Some(key) { seen := seen[key := now]; }
        return None;
      }
      if mayReplace { Close(now); }
      ghost var ready := State();
      var last := if key in seen then Some(seen[key]) else None;
      seen := seen[key := now];
      PruneSeen(now - RETRY_REUSE_MS);
      assert State() == ready.(seen := Prune(ready.seen[key := now], now - RETRY_REUSE_MS));
      if last.Some? && now - last.value < SEEN_WINDOW_MS { return None; }
      sent := SendAgain(key, now, newId);
    }

    /** A handheld, typed or searched admit: refused while an answer is on its way. */
    method OnTyped(key: string, now: int, newId: string) returns (sent: Option<Pending>)
      modifies this
      ensures After(State(), sent) == Step(old(State()), Typed(key, now, newId), true)
    {
      if busy { return None; }
      sent := SendAgain(key, now, newId);
    }

    method SendAgain(key: string, now: int, newId: string) returns (sent: Option<Pending>)
      modifies this
      ensures After(State(), sent) == Sending(old(State()), ToSend(old(State()), key, now, newId))
    {
      var reuse: Option<Pending> := None;
      if key in failed && now - failed[key].firstAt < RETRY_REUSE_MS { reuse := Some(failed[key]); }
      sent := Send(Pending(key, if reuse.Some? then reuse.value.scanId else newId,
                           if reuse.Some? then reuse.value.firstAt else now));
    }

    /** One scan's answer, or its silence, arrives. */
    method OnOutcome(i: nat, how: How)
      requires i < |inflight|
      modifies this
      ensures State() == Settle(old(State()), i, how)
    {
      var p := inflight[i];
      busy, inflight := false, inflight[..i] + inflight[i + 1..];
      match how {
        case Answered(auto) =>
          failed, retryScan := failed - {p.key}, None;
          ShowAnswer(auto, false);
        case NoResult =>
          failed, retryScan := failed - {p.key}, None;
          ShowAnswer(false, false);
        case Early(auto) => ShowAnswer(auto, false);
        case SignedOut =>
        case Refused =>
          retryScan := None;
          ShowAnswer(false, false);
        case Unheard(slow) =>
          failed, retryScan := failed[p.key := p], Some(p);
          ShowAnswer(false, !slow);
      }
    }

    method OnRetry(now: int) returns (sent: Option<Pending>)
      modifies this
      ensures After(State(), sent) == RetryTapped(old(State()), now)
    {
      var scan := retryScan;
      Close(now);
      sent := None;
      if scan.Some? { sent := Send(scan.value); }
    }

    /** A scan was undone: its id must not be sent again. */
    method OnUndone(scanId: string)
      modifies this`failed
      ensures failed == map k | k in old(failed) && old(failed)[k].scanId != scanId :: old(failed)[k]
    {
      var left, all := failed.Keys, failed;
      while left != {}
        invariant left <= all.Keys
        invariant failed == map k | k in all && (k in left || all[k].scanId != scanId) :: all[k]
        decreases left
      {
        var k :| k in left;
        left := left - {k};
        if all[k].scanId == scanId { failed := failed - {k}; }
      }
    }
  }
}
