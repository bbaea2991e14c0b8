/** The door scanner's read bookkeeping (src/app/door/scanner.tsx): which reads are sent, and under which scan id. */
module ScanRules {
  import opened Common

  const SEEN_WINDOW_MS: int := 1_500
  const RETRY_REUSE_MS: int := 2 * 60_000
  const PRUNE_FROM: nat := 200

  datatype Pending = Pending(key: string, scanId: string, firstAt: int)

  /** `inflight` are the scans whose answer is still on its way. */
  datatype Desk = Desk(
    busy: bool,
    overlayOpen: bool,
    overlayAuto: bool,
    canRetry: bool,
    activeKey: Option<string>,
    seen: map<string, int>,
    failed: map<string, Pending>,
    retryScan: Option<Pending>,
    inflight: seq<Pending>)

  const NEW_DESK: Desk := Desk(false, false, false, false, None, map[], map[], None, [])

  /** How a sent scan ends, as far as the bookkeeping is concerned. */
  datatype How =
    | Answered(auto: bool)  // by the server, or from the offline list; `auto`: the answer clears itself
    | NoResult
    | Early(auto: bool)     // the phone admits it; the server's answer no longer matters here
    | SignedOut
    | Refused
    | Unheard(slow: bool)

  datatype Event =
    | Camera(key: string, now: int, newId: string, panel: bool)
    | Typed(key: string, now: int, newId: string)
    | Outcome(i: int, how: How)
    | Dismiss(now: int)
    | Retry(now: int)
    | Undone(scanId: string)

  /** A desk after an event, and the scan the event sent. */
  datatype After = After(desk: Desk, sent: Option<Pending>)

  function Show(s: Desk, auto: bool, retry: bool): Desk {
    s.(overlayOpen := true, overlayAuto := auto, canRetry := retry)
  }

  function Dismissed(s: Desk, now: int): Desk {
    s.(overlayOpen := false, overlayAuto := false, canRetry := false, activeKey := None,
       seen := if s.activeKey.Some? then s.seen[s.activeKey.value := now] else s.seen)
  }

  function Sending(s: Desk, p: Pending): After {
    After(s.(busy := true, activeKey := Some(p.key), inflight := s.inflight + [p]), Some(p))
  }

  /** A large map forgets what is old. */
  function Prune(seen: map<string, int>, olderThan: int): map<string, int> {
    if |seen| < PRUNE_FROM then seen else map k | k in seen && seen[k] >= olderThan :: seen[k]
  }

  /** The scan to send: a recent one that got no answer goes again under its id. */
  function ToSend(s: Desk, key: string, now: int, newId: string): Pending {
    if key in s.failed && now - s.failed[key].firstAt < RETRY_REUSE_MS
    then Pending(key, s.failed[key].scanId, s.failed[key].firstAt) else Pending(key, newId, now)
  }

  /** A camera read with no answer on screen and none on its way. */
  function FreshRead(s: Desk, key: string, now: int, newId: string, prunes: bool): After {
    var seen := s.seen[key := now];
    var next := s.(seen := if prunes then Prune(seen, now - RETRY_REUSE_MS) else seen);
    if key in s.seen && now - s.seen[key] < SEEN_WINDOW_MS then After(next, None)
    else Sending(next, ToSend(s, key, now, newId))
  }

  predicate Replaceable(s: Desk, key: string) {
    !s.busy && s.overlayAuto && Some(key) != s.activeKey
  }

  function CameraRead(s: Desk, key: string, now: int, newId: string, panel: bool, prunes: bool): After {
    if panel then After(s, None)
    else if Replaceable(s, key) then FreshRead(Dismissed(s, now), key, now, newId, prunes)
    else if s.busy || s.overlayOpen then
      After(if s.activeKey == Some(key) then s.(seen := s.seen[key := now]) else s, None)
    else FreshRead(s, key, now, newId, prunes)
  }

  /** A handheld or typed code: one-shot, never dropped silently. */
  function TypedCode(s: Desk, key: string, now: int, newId: string): After {
    if s.busy then After(s, None) else Sending(s, ToSend(s, key, now, newId))
  }

  function Without(ps: seq<Pending>, i: int): seq<Pending>
    requires 0 <= i < |ps|
  {
    ps[..i] + ps[i + 1..]
  }

  function Settle(s: Desk, i: int, how: How): Desk
    requires 0 <= i < |s.inflight|
  {
    var p := s.inflight[i];
    var done := s.(busy := false, inflight := Without(s.inflight, i));
    match how
    case Answered(auto) => Show(done.(failed := done.failed - {p.key}, retryScan := None), auto, false)
    case NoResult => Show(done.(failed := done.failed - {p.key}, retryScan := None), false, false)
    case Early(auto) => Show(done, auto, false)
    case SignedOut => done
    case Refused => Show(done.(retryScan := None), false, false)
    case Unheard(slow) => Show(done.(failed := done.failed[p.key := p], retryScan := Some(p)), false, !slow)
  }

  /** Retry and Dismiss are there only while an answer is shown. */
  predicate Enabled(s: Desk, e: Event) {
    match e
    case Outcome(i, _) => 0 <= i < |s.inflight|
    case Dismiss(_) => s.overlayOpen
    case Retry(_) => s.overlayOpen && s.canRetry
    case _ => true
  }

  function RetryTapped(s: Desk, now: int): After {
    if s.retryScan.None? then After(Dismissed(s, now), None) else Sending(Dismissed(s, now), s.retryScan.value)
  }

  function Step(s: Desk, e: Event, prunes: bool): After
    requires Enabled(s, e)
  {
    match e
    case Camera(key, now, newId, panel) => CameraRead(s, key, now, newId, panel, prunes)
    case Typed(key, now, newId) => TypedCode(s, key, now, newId)
    case Outcome(i, how) => After(Settle(s, i, how), None)
    case Dismiss(now) => After(Dismissed(s, now), None)
    case Retry(now) => RetryTapped(s, now)
    case Undone(scanId) =>
      After(s.(failed := map k | k in s.failed && s.failed[k].scanId != scanId :: s.failed[k]), None)
  }

  // ----- runs -----

  predicate Valid(s: Desk, es: seq<Event>, prunes: bool)
    decreases es
  {
    es == [] || (Enabled(s, es[0]) && Valid(Step(s, es[0], prunes).desk, es[1..], prunes))
  }

  function Reached(s: Desk, es: seq<Event>, prunes: bool): Desk
    requires Valid(s, es, prunes)
    decreases es
  {
    if es == [] then s else Reached(Step(s, es[0], prunes).desk, es[1..], prunes)
  }

  lemma {:induction false} FirstThen(s: Desk, e: Event, es: seq<Event>, prunes: bool)
    requires Enabled(s, e) && Valid(Step(s, e, prunes).desk, es, prunes)
    ensures Valid(s, [e] + es, prunes)
    ensures Reached(s, [e] + es, prunes) == Reached(Step(s, e, prunes).desk, es, prunes)
  {
    assert ([e] + es)[1..] == es;
  }

  /** What each event sent. */
  function Sends(s: Desk, es: seq<Event>, prunes: bool): seq<Option<Pending>>
    requires Valid(s, es, prunes)
    decreases es
  {
    if es == [] then [] else [Step(s, es[0], prunes).sent] + Sends(Step(s, es[0], prunes).desk, es[1..], prunes)
  }

  function TimeOf(e: Event, before: int): int {
    match e
    case Camera(_, now, _, _) => now
    case Typed(_, now, _) => now
    case Dismiss(now) => now
    case Retry(now) => now
    case _ => before
  }

  /** The clock does not go back. */
  predicate Clocked(es: seq<Event>, before: int)
    decreases es
  {
    es == [] || (before <= TimeOf(es[0], before) && Clocked(es[1..], TimeOf(es[0], before)))
  }
}
