/** Two gates, one server (docs-site/components/gate-flow.tsx). */
module GateFlow {
  import opened Common

  datatype GateId = A | B

  datatype CheckIn = CheckIn(gate: GateId, minute: int, offline: bool)

  datatype Answer = Admit(offline: bool) | Refuse(first: CheckIn, offline: bool)

  datatype Gate = Gate(online: bool, knowsIn: Option<CheckIn>, outbox: seq<CheckIn>, answer: Option<Answer>)

  /** What a line of the log reports. */
  datatype Line =
    | DoorsOpen
    | Admitted(id: GateId, offline: bool)
    | Refused(id: GateId, offline: bool)
    | LostSignal(id: GateId)
    | HasSignal(id: GateId)
    | ReplayAdmits(scanned: CheckIn)
    | DoubleEntry(scanned: CheckIn, first: CheckIn)

  datatype World = World(minute: int, server: Option<CheckIn>, doubleEntry: bool, a: Gate, b: Gate, log: seq<Line>)

  const FRESH_GATE: Gate := Gate(true, None, [], None)

  const START: World := World(0, None, false, FRESH_GATE, FRESH_GATE, [DoorsOpen])

  function At(w: World, id: GateId): Gate {
    if id.A? then w.a else w.b
  }

  function With(w: World, id: GateId, g: Gate): World {
    if id.A? then w.(a := g) else w.(b := g)
  }

  function Logs(w: World, line: Line): World {
    w.(log := w.log + [line])
  }

  // ----- the reducer -----

  /** The server's news reaches a gate that has signal and no news yet. */
  function Hears(g: Gate, server: Option<CheckIn>): Gate {
    if server.Some? && g.online && g.knowsIn.None? then g.(knowsIn := server) else g
  }

  function Spread(w: World): World {
    w.(a := Hears(w.a, w.server), b := Hears(w.b, w.server))
  }

  function Scan(w: World, id: GateId): World {
    var gate, next := At(w, id), w.(minute := w.minute + 1);
    if gate.online then
      if w.server.Some? then
        Logs(With(next, id, gate.(knowsIn := w.server, answer := Some(Refuse(w.server.value, false)))),
             Refused(id, false))
      else
        var checkIn := CheckIn(id, w.minute, false);
        var told := gate.(knowsIn := Some(checkIn), answer := Some(Admit(false)));
        Spread(Logs(With(next.(server := Some(checkIn)), id, told), Admitted(id, false)))
    else if gate.knowsIn.Some? then
      Logs(With(next, id, gate.(answer := Some(Refuse(gate.knowsIn.value, true)))), Refused(id, true))
    else
      var admit := CheckIn(id, w.minute, true);
      Logs(With(next, id, gate.(knowsIn := Some(admit), outbox := gate.outbox + [admit], answer := Some(Admit(true)))),
           Admitted(id, true))
  }

  /** One offline admit replayed: the server's check-in if it has none, a double entry if it has. */
  function Replayed(w: World, scanned: CheckIn): World {
    if w.server.None? then Logs(w.(server := Some(scanned)), ReplayAdmits(scanned))
    else Logs(w.(doubleEntry := true), DoubleEntry(scanned, w.server.value))
  }

  function Replay(w: World, outbox: seq<CheckIn>): World
    decreases outbox
  {
    if outbox == [] then w else Replay(Replayed(w, outbox[0]), outbox[1..])
  }

  function SetSignal(w: World, id: GateId, online: bool): World {
    var next := With(w.(minute := w.minute + 1), id, At(w, id).(online := online));
    if !online then Logs(next, LostSignal(id))
    else
      var synced := Replay(Logs(next, HasSignal(id)), At(w, id).outbox);
      var gate := At(synced, id);
      var knowsIn := if synced.server.Some? then synced.server else gate.knowsIn;
      Spread(With(synced, id, gate.(outbox := [], knowsIn := knowsIn)))
  }

  // ----- the same, step by step -----

  method SpreadNews(w: World) returns (next: World)
    ensures next == Spread(w)
  {
    next := w;
    if w.server.None? { return; }
    var ids := [A, B];
    var i := 0;
    while i < |ids|
      invariant 0 <= i <= |ids|
      invariant next == w.(a := if i > 0 then Hears(w.a, w.server) else w.a,
                           b := if i > 1 then Hears(w.b, w.server) else w.b)
    {
      var gate := At(next, ids[i]);
      if gate.online && gate.knowsIn.None? {
        next := With(next, ids[i], gate.(knowsIn := w.server));
      }
      i := i + 1;
    }
  }

  method ScanTicket(w: World, id: GateId) returns (next: World)
    ensures next == Scan(w, id)
  {
    var gate := At(w, id);
    next := w.(minute := w.minute + 1);
    if gate.online {
      if w.server.Some? {
        next := With(next, id, gate.(knowsIn := w.server, answer := Some(Refuse(w.server.value, false))));
        next := next.(log := w.log + [Refused(id, false)]);
        return;
      }
      var checkIn := CheckIn(id, w.minute, false);
      next := next.(server := Some(checkIn));
      next := With(next, id, gate.(knowsIn := Some(checkIn), answer := Some(Admit(false))));
      next := next.(log := w.log + [Admitted(id, false)]);
      next := SpreadNews(next);
      return;
    }
    if gate.knowsIn.Some? {
      next := With(next, id, gate.(answer := Some(Refuse(gate.knowsIn.value, true))));
      next := next.(log := w.log + [Refused(id, true)]);
      return;
    }
    var admit := CheckIn(id, w.minute, true);
    next := With(next, id, gate.(knowsIn := Some(admit), outbox := gate.outbox + [admit], answer := Some(Admit(true))));
    next := next.(log := w.log + [Admitted(id, true)]);
  }

  method ChangeSignal(w: World, id: GateId, online: bool) returns (next: World)
    ensures next == SetSignal(w, id, online)
  {
    next := With(w.(minute := w.minute + 1), id, At(w, id).(online := online));
    if !online {
      next := next.(log := w.log + [LostSignal(id)]);
      return;
    }
    var outbox, lines := At(w, id).outbox, [HasSignal(id)];
    ghost var synced := Replay(next.(log := w.log + lines), outbox);
    var i := 0;
    while i < |outbox|
      invariant 0 <= i <= |outbox|
      invariant next.log == w.log
      invariant Replay(next.(log := w.log + lines), outbox[i..]) == synced
    {
      ghost var before, line := next.(log := w.log + lines), lines;
      assert outbox[i..][1..] == outbox[i + 1..];
      if next.server.None? {
        next := next.(server := Some(outbox[i]));
        lines := lines + [ReplayAdmits(outbox[i])];
      } else {
        lines := lines + [DoubleEntry(outbox[i], next.server.value)];
        next := next.(doubleEntry := true);
      }
      assert w.log + lines == (w.log + line) + lines[|line|..];
      assert next.(log := w.log + lines) == Replayed(before, outbox[i]);
      i := i + 1;
    }
    assert outbox[i..] == [];
    var gate := At(next, id);
    next := With(next, id, gate.(outbox := [], knowsIn := if next.server.Some? then next.server else gate.knowsIn));
    next := SpreadNews(next.(log := next.log + lines));
  }

  // ----- the log as a ledger -----

  datatype Kind = AdmitAt(id: GateId) | Double | Refusal

  predicate Is(k: Kind, line: Line) {
    match k
    case AdmitAt(id) => line.Admitted? && line.id == id
    case Double => line.DoubleEntry?
    case Refusal => line.Refused?
  }

  function Tally(log: seq<Line>, k: Kind): int {
    if log == [] then 0 else (if Is(k, log[0]) then 1 else 0) + Tally(log[1..], k)
  }

  lemma {:induction false} TallyMore(log: seq<Line>, line: Line, k: Kind)
    ensures Tally(log + [line], k) == Tally(log, k) + if Is(k, line) then 1 else 0
  {
    if log == [] {
      assert [line][1..] == [];
      assert log + [line] == [line];
    } else {
      assert (log + [line])[1..] == log[1..] + [line];
      TallyMore(log[1..], line, k);
    }
  }

  lemma {:induction false} TalliesMore(log: seq<Line>, line: Line)
    ensures forall k :: Tally(log + [line], k) == Tally(log, k) + if Is(k, line) then 1 else 0
  {
    forall k
      ensures Tally(log + [line], k) == Tally(log, k) + if Is(k, line) then 1 else 0
    {
      TallyMore(log, line, k);
    }
  }

  /** How often Mina was let in. */
  function Admits(w: World): int {
    Tally(w.log, AdmitAt(A)) + Tally(w.log, AdmitAt(B))
  }

  function Doubles(w: World): int {
    Tally(w.log, Double)
  }

  /** Every admit shown is the server's check-in, waits in an outbox, or was recorded as a double entry. */
  predicate Conserved(w: World, admitsA: int, admitsB: int, doubles: int) {
    && admitsA + admitsB == (if w.server.Some? then 1 else 0) + |w.a.outbox| + |w.b.outbox| + doubles
    && 0 <= doubles
    && w.doubleEntry == (doubles > 0)
  }

  /** What a gate's phone believes, and how often it let her in. */
  predicate GateSound(g: Gate, server: Option<CheckIn>, admits: int) {
    && |g.outbox| <= admits <= 1
    && (admits == 1 ==> g.knowsIn.Some?)
    && (g.online ==> g.outbox == [] && g.knowsIn == server)
    && (if g.outbox == [] then g.knowsIn.None? || g.knowsIn == server else g.knowsIn == Some(g.outbox[0]))
  }

  predicate Books(w: World, admitsA: int, admitsB: int, doubles: int) {
    Conserved(w, admitsA, admitsB, doubles) && GateSound(w.a, w.server, admitsA) && GateSound(w.b, w.server, admitsB)
  }

  /** A refusal comes only after an admit. */
  predicate RefusalsFollow(log: seq<Line>) {
    forall i | 0 <= i < |log| && log[i].Refused? :: Tally(log[..i], AdmitAt(A)) + Tally(log[..i], AdmitAt(B)) > 0
  }

  predicate Ledger(w: World) {
    && Books(w, Tally(w.log, AdmitAt(A)), Tally(w.log, AdmitAt(B)), Doubles(w))
    && RefusalsFollow(w.log)
  }

  lemma {:induction false} FollowsMore(log: seq<Line>, line: Line)
    requires RefusalsFollow(log)
    requires line.Refused? ==> Tally(log, AdmitAt(A)) + Tally(log, AdmitAt(B)) > 0
    ensures RefusalsFollow(log + [line])
  {
    var more := log + [line];
    forall i | 0 <= i < |more| && more[i].Refused?
      ensures Tally(more[..i], AdmitAt(A)) + Tally(more[..i], AdmitAt(B)) > 0
    {
      if i < |log| {
        assert more[..i] == log[..i];
      } else {
        assert more[..i] == log;
      }
    }
  }

  /** The books after a scan that adds this line. */
  predicate ScanKeeps(w: World, id: GateId, line: Line, admitsA: int, admitsB: int, doubles: int) {
    && Scan(w, id).log == w.log + [line]
    && Books(Scan(w, id), admitsA + (if Is(AdmitAt(A), line) then 1 else 0),
             admitsB + (if Is(AdmitAt(B), line) then 1 else 0), doubles)
  }

  lemma {:induction false} OnlineScanBooks(w: World, id: GateId, admitsA: int, admitsB: int, doubles: int)
    requires Books(w, admitsA, admitsB, doubles) && At(w, id).online
    ensures ScanKeeps(w, id, ScanLine(w, id), admitsA, admitsB, doubles)
  {
  }

  lemma {:induction false} OfflineScanBooks(w: World, id: GateId, admitsA: int, admitsB: int, doubles: int)
    requires Books(w, admitsA, admitsB, doubles) && !At(w, id).online
    ensures ScanKeeps(w, id, ScanLine(w, id), admitsA, admitsB, doubles)
  {
  }

  /** A scan adds one line: an admit exactly when neither the server nor the phone knows of one. */
  lemma {:induction false} ScanBooks(w: World, id: GateId, admitsA: int, admitsB: int, doubles: int)
    requires Books(w, admitsA, admitsB, doubles)
    ensures ScanKeeps(w, id, ScanLine(w, id), admitsA, admitsB, doubles)
    ensures ScanLine(w, id).Refused? ==> admitsA + admitsB > 0
  {
    if At(w, id).online {
      OnlineScanBooks(w, id, admitsA, admitsB, doubles);
    } else {
      OfflineScanBooks(w, id, admitsA, admitsB, doubles);
    }
  }

  /** The answer shown is the one logged, and a refusal names the check-in the gate went by. */
  lemma {:induction false} ShownIsLogged(w: World, id: GateId)
    ensures var answer := At(Scan(w, id), id).answer;
            && answer.Some?
            && (answer.value.Admit? <==> ScanLine(w, id).Admitted?)
            && answer.value.offline == !At(w, id).online == ScanLine(w, id).offline
            && (answer.value.Refuse? ==>
                  Some(answer.value.first) == if At(w, id).online then w.server else At(w, id).knowsIn)
  {
  }

  function ScanLine(w: World, id: GateId): Line {
    var gate := At(w, id);
    if (if gate.online then w.server.Some? else gate.knowsIn.Some?) then Refused(id, !gate.online)
    else Admitted(id, !gate.online)
  }

  lemma {:induction false} ScanLedger(w: World, id: GateId)
    requires Ledger(w)
    ensures Ledger(Scan(w, id))
  {
    var line := ScanLine(w, id);
    ScanBooks(w, id, Tally(w.log, AdmitAt(A)), Tally(w.log, AdmitAt(B)), Doubles(w));
    TalliesMore(w.log, line);
    FollowsMore(w.log, line);
  }

  lemma {:induction false} ReplayOne(w: World, outbox: seq<CheckIn>)
    requires |outbox| <= 1
    ensures Replay(w, outbox) == if outbox == [] then w else Replayed(w, outbox[0])
  {
    if outbox != [] {
      assert outbox[1..] == [];
    }
  }

  lemma {:induction false} LostBooks(w: World, id: GateId, admitsA: int, admitsB: int, doubles: int)
    requires Books(w, admitsA, admitsB, doubles)
    ensures Books(SetSignal(w, id, false), admitsA, admitsB, doubles)
  {
  }

  lemma {:induction false} NothingToSync(w: World, id: GateId, admitsA: int, admitsB: int, doubles: int)
    requires Books(w, admitsA, admitsB, doubles) && At(w, id).outbox == []
    ensures Books(SetSignal(w, id, true), admitsA, admitsB, doubles)
  {
  }

  /** The world between the signal's return and the replay. */
  function Back(w: World, id: GateId): World {
    Logs(With(w.(minute := w.minute + 1), id, At(w, id).(online := true)), HasSignal(id))
  }

  lemma {:induction false} FirstSync(w: World, id: GateId, admitsA: int, admitsB: int, doubles: int)
    requires Books(w, admitsA, admitsB, doubles) && At(w, id).outbox != [] && w.server.None?
    ensures Books(SetSignal(w, id, true), admitsA, admitsB, doubles)
  {
    ReplayOne(Back(w, id), At(w, id).outbox);
  }

  lemma {:induction false} LaterSync(w: World, id: GateId, admitsA: int, admitsB: int, doubles: int)
    requires Books(w, admitsA, admitsB, doubles) && At(w, id).outbox != [] && w.server.Some?
    ensures Books(SetSignal(w, id, true), admitsA, admitsB, doubles + 1)
  {
    ReplayOne(Back(w, id), At(w, id).outbox);
  }

  /** Syncing an outbox settles what it owed: the server's check-in, or a double entry. */
  lemma {:induction false} SignalBooks(w: World, id: GateId, online: bool, admitsA: int, admitsB: int, doubles: int)
    requires Books(w, admitsA, admitsB, doubles)
    ensures Books(SetSignal(w, id, online), admitsA, admitsB, doubles + NewDoubles(w, id, online))
  {
    if !online {
      LostBooks(w, id, admitsA, admitsB, doubles);
    } else if At(w, id).outbox == [] {
      NothingToSync(w, id, admitsA, admitsB, doubles);
    } else if w.server.None? {
      FirstSync(w, id, admitsA, admitsB, doubles);
    } else {
      LaterSync(w, id, admitsA, admitsB, doubles);
    }
  }

  function NewDoubles(w: World, id: GateId, online: bool): int {
    if online && At(w, id).outbox != [] && w.server.Some? then 1 else 0
  }

  lemma {:induction false} SignalLog(w: World, id: GateId, online: bool)
    requires |At(w, id).outbox| <= 1
    ensures var log := w.log + [if online then HasSignal(id) else LostSignal(id)];
            SetSignal(w, id, online).log ==
            if !online || At(w, id).outbox == [] then log
            else
              var scanned := At(w, id).outbox[0];
              log + [if w.server.None? then ReplayAdmits(scanned) else DoubleEntry(scanned, w.server.value)]
  {
    if online {
      ReplayOne(Back(w, id), At(w, id).outbox);
    }
  }

  lemma {:induction false} SignalLedger(w: World, id: GateId, online: bool)
    requires Ledger(w)
    ensures Ledger(SetSignal(w, id, online))
  {
    var line := if online then HasSignal(id) else LostSignal(id);
    SignalBooks(w, id, online, Tally(w.log, AdmitAt(A)), Tally(w.log, AdmitAt(B)), Doubles(w));
    SignalLog(w, id, online);
    TalliesMore(w.log, line);
    FollowsMore(w.log, line);
    if online && At(w, id).outbox != [] {
      var scanned := At(w, id).outbox[0];
      var sync := if w.server.None? then ReplayAdmits(scanned) else DoubleEntry(scanned, w.server.value);
      TalliesMore(w.log + [line], sync);
      FollowsMore(w.log + [line], sync);
    }
  }

  // ----- runs -----

  datatype Act = Scans(id: GateId) | Signal(id: GateId, online: bool)

  function Do(w: World, act: Act): World {
    match act
    case Scans(id) => Scan(w, id)
    case Signal(id, online) => SetSignal(w, id, online)
  }

  function DoAll(w: World, acts: seq<Act>): World
    decreases acts
  {
    if acts == [] then w else DoAll(Do(w, acts[0]), acts[1..])
  }

  lemma {:induction false} RunLedger(w: World, acts: seq<Act>)
    requires Ledger(w)
    ensures Ledger(DoAll(w, acts))
    decreases acts
  {
    if acts != [] {
      match acts[0] {
        case Scans(id) => ScanLedger(w, id);
        case Signal(id, online) => SignalLedger(w, id, online);
      }
      RunLedger(Do(w, acts[0]), acts[1..]);
    }
  }

  /** Over every run from the opening of the doors, the books balance. */
  lemma {:induction false} BooksBalance(acts: seq<Act>)
    ensures var w := DoAll(START, acts);
            && Admits(w) == (if w.server.Some? then 1 else 0) + |w.a.outbox| + |w.b.outbox| + Doubles(w)
            && (w.doubleEntry <==> Doubles(w) > 0)
            && Tally(w.log, AdmitAt(A)) <= 1 && Tally(w.log, AdmitAt(B)) <= 1 && Doubles(w) <= 1
            && RefusalsFollow(w.log)
  {
    RunLedger(START, acts);
  }

  /** Once both gates have signal again, a double entry stands exactly when both let her in. */
  lemma {:induction false} DoubleEntryIff(acts: seq<Act>)
    requires var w := DoAll(START, acts); w.a.online && w.b.online
    ensures var w := DoAll(START, acts);
            && (w.doubleEntry <==> Tally(w.log, AdmitAt(A)) == 1 && Tally(w.log, AdmitAt(B)) == 1)
            && (w.server.Some? <==> Admits(w) > 0)
            && w.a.knowsIn == w.server && w.b.knowsIn == w.server
  {
    RunLedger(START, acts);
  }

  lemma {:induction false} ReplayKeeps(w: World, outbox: seq<CheckIn>)
    ensures w.server.Some? ==> Replay(w, outbox).server == w.server
    ensures w.doubleEntry ==> Replay(w, outbox).doubleEntry
    decreases outbox
  {
    if outbox != [] {
      ReplayKeeps(Replayed(w, outbox[0]), outbox[1..]);
    }
  }

  lemma {:induction false} StepKeeps(w: World, act: Act)
    ensures w.server.Some? ==> Do(w, act).server == w.server
    ensures w.doubleEntry ==> Do(w, act).doubleEntry
  {
    if act.Signal? && act.online {
      ReplayKeeps(Back(w, act.id), At(w, act.id).outbox);
    }
  }

  /** Over every run, the server's check-in stays what it once is, and a double entry is not forgotten. */
  lemma {:induction false} CheckInStays(w: World, acts: seq<Act>)
    ensures w.server.Some? ==> DoAll(w, acts).server == w.server
    ensures w.doubleEntry ==> DoAll(w, acts).doubleEntry
    decreases acts
  {
    if acts != [] {
      StepKeeps(w, acts[0]);
      CheckInStays(Do(w, acts[0]), acts[1..]);
    }
  }
}
