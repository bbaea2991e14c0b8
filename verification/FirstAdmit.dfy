/** When the first admit shown is the check-in. */
module FirstAdmit {
  import opened Common
  import opened GateFlow

  /** The gate of the first admit in the log. */
  function First(log: seq<Line>): Option<GateId> {
    if log == [] then None else if log[0].Admitted? then Some(log[0].id) else First(log[1..])
  }

  lemma {:induction false} FirstMore(log: seq<Line>, line: Line)
    ensures First(log + [line]) ==
            if First(log).Some? then First(log) else if line.Admitted? then Some(line.id) else None
  {
    if log == [] {
      assert log + [line] == [line];
    } else {
      assert (log + [line])[1..] == log[1..] + [line];
      FirstMore(log[1..], line);
    }
  }

  function Other(id: GateId): GateId {
    if id.A? then B else A
  }

  /** The gate whose offline admit came first. */
  function Earliest(a: seq<CheckIn>, b: seq<CheckIn>): Option<GateId> {
    if a == [] && b == [] then None
    else if b == [] then Some(A)
    else if a == [] then Some(B)
    else if a[0].minute < b[0].minute then Some(A) else Some(B)
  }

  predicate Stamped(outbox: seq<CheckIn>, id: GateId, minute: int) {
    |outbox| <= 1 && forall i | 0 <= i < |outbox| :: outbox[i].gate == id && outbox[i].minute < minute
  }

  /** Until the server has a check-in, the first admit of the log is the earliest one waiting. */
  predicate Waiting(w: World) {
    w.server.None? ==>
      && Stamped(w.a.outbox, A, w.minute) && Stamped(w.b.outbox, B, w.minute)
      && (w.a.outbox != [] && w.b.outbox != [] ==> w.a.outbox[0].minute != w.b.outbox[0].minute)
      && First(w.log) == Earliest(w.a.outbox, w.b.outbox)
  }

  lemma {:induction false} ScanWaits(w: World, id: GateId)
    requires Waiting(w) && Ledger(w)
    ensures Waiting(Scan(w, id))
  {
    FirstMore(w.log, ScanLine(w, id));
  }

  lemma {:induction false} SignalWaits(w: World, id: GateId, online: bool)
    requires Waiting(w) && Ledger(w)
    ensures Waiting(SetSignal(w, id, online))
  {
    FirstMore(w.log, if online then HasSignal(id) else LostSignal(id));
    SignalLog(w, id, online);
    if online {
      ReplayOne(Back(w, id), At(w, id).outbox);
    }
  }

  lemma {:induction false} RunWaits(w: World, acts: seq<Act>)
    requires Waiting(w) && Ledger(w)
    ensures Waiting(DoAll(w, acts)) && Ledger(DoAll(w, acts))
    decreases acts
  {
    if acts != [] {
      match acts[0] {
        case Scans(id) =>
          ScanWaits(w, id);
          ScanLedger(w, id);
        case Signal(id, online) =>
          SignalWaits(w, id, online);
          SignalLedger(w, id, online);
      }
      RunWaits(Do(w, acts[0]), acts[1..]);
    }
  }

  /** This act gives the server its check-in. */
  predicate Decides(w: World, act: Act) {
    w.server.None? && Do(w, act).server.Some?
  }

  /** No admit waits at the other gate, or this is a sync, and the admit it replays is the earlier one. */
  predicate NoneEarlier(w: World, act: Act) {
    var mine, others := At(w, act.id).outbox, At(w, Other(act.id)).outbox;
    others == [] || (act.Signal? && mine != [] && mine[0].minute < others[0].minute)
  }

  lemma {:induction false} ScanDecides(w: World, id: GateId)
    requires Waiting(w) && Ledger(w) && Decides(w, Scans(id))
    ensures var next := Scan(w, id);
            next.server.value.gate == id && (First(next.log) == Some(id) <==> NoneEarlier(w, Scans(id)))
  {
    FirstMore(w.log, ScanLine(w, id));
  }

  lemma {:induction false} SyncDecides(w: World, id: GateId, online: bool)
    requires Waiting(w) && Ledger(w) && Decides(w, Signal(id, online))
    ensures var next := SetSignal(w, id, online);
            next.server.value.gate == id && (First(next.log) == Some(id) <==> NoneEarlier(w, Signal(id, online)))
  {
    ReplayOne(Back(w, id), At(w, id).outbox);
    SignalLog(w, id, online);
    FirstMore(w.log, HasSignal(id));
    FirstMore(w.log + [HasSignal(id)], ReplayAdmits(At(w, id).outbox[0]));
  }

  lemma {:induction false} StepFirst(w: World, act: Act)
    requires Ledger(w) && First(w.log).Some?
    ensures First(Do(w, act).log) == First(w.log)
  {
    match act
    case Scans(id) => FirstMore(w.log, ScanLine(w, id));
    case Signal(id, online) =>
      var line := if online then HasSignal(id) else LostSignal(id);
      SignalLog(w, id, online);
      FirstMore(w.log, line);
      if online && At(w, id).outbox != [] {
        var scanned := At(w, id).outbox[0];
        FirstMore(w.log + [line],
                  if w.server.None? then ReplayAdmits(scanned) else DoubleEntry(scanned, w.server.value));
      }
  }

  lemma {:induction false} FirstStays(w: World, acts: seq<Act>)
    requires Ledger(w) && First(w.log).Some?
    ensures First(DoAll(w, acts).log) == First(w.log)
    decreases acts
  {
    if acts != [] {
      StepFirst(w, acts[0]);
      match acts[0] {
        case Scans(id) => ScanLedger(w, id);
        case Signal(id, online) => SignalLedger(w, id, online);
      }
      FirstStays(Do(w, acts[0]), acts[1..]);
    }
  }

  /**
   * Over every run, whatever comes later: the server's check-in is the first admit that was shown exactly when, at the
   * act that set it, no earlier admit waited at the other gate.
   */
  lemma {:induction false} FirstShownIff(acts: seq<Act>, act: Act, later: seq<Act>)
    requires Decides(DoAll(START, acts), act)
    ensures var w := DoAll(START, acts);
            var end := DoAll(Do(w, act), later);
            && end.server == Do(w, act).server && end.server.Some? && First(end.log).Some?
            && (First(end.log) == Some(end.server.value.gate) <==> NoneEarlier(w, act))
  {
    var w := DoAll(START, acts);
    assert [DoorsOpen][1..] == [];
    RunWaits(START, acts);
    Decided(w, act);
    FirstStays(Do(w, act), later);
    CheckInStays(Do(w, act), later);
  }

  lemma {:induction false} Decided(w: World, act: Act)
    requires Waiting(w) && Ledger(w) && Decides(w, act)
    ensures var next := Do(w, act);
            && Ledger(next) && First(next.log).Some?
            && (First(next.log) == Some(next.server.value.gate) <==> NoneEarlier(w, act))
  {
    match act
    case Scans(id) =>
      ScanDecides(w, id);
      ScanLedger(w, id);
      FirstMore(w.log, ScanLine(w, id));
    case Signal(id, online) =>
      SyncDecides(w, id, online);
      SignalLedger(w, id, online);
      AdmitWasShown(w, id);
      StepFirst(w, act);
  }

  lemma {:induction false} AdmitWasShown(w: World, id: GateId)
    requires Waiting(w) && w.server.None? && At(w, id).outbox != []
    ensures First(w.log).Some?
  {
  }

  // ----- runs where it is not -----

  /** Each gate lets her in without signal, A a minute before B, and B syncs first. */
  lemma {:induction false} LaterAdmitMayWin()
    ensures var acts := [Signal(A, false), Signal(B, false), Scans(A), Scans(B)];
            var w := DoAll(START, acts);
            Decides(w, Signal(B, true)) && !NoneEarlier(w, Signal(B, true))
  {
    var acts := [Signal(A, false), Signal(B, false), Scans(A), Scans(B)];
    FourActs(acts[0], acts[1], acts[2], acts[3]);
    var two := Do(Do(START, Signal(A, false)), Signal(B, false));
    assert two == World(2, None, false, Gate(false, None, [], None), Gate(false, None, [], None),
                        [DoorsOpen, LostSignal(A), LostSignal(B)]);
  }

  /** A lets her in without signal; B, online, scans her again while that admit waits. */
  lemma {:induction false} OnlineScanMayWin()
    ensures var acts := [Signal(A, false), Scans(A)];
            var w := DoAll(START, acts);
            Decides(w, Scans(B)) && !NoneEarlier(w, Scans(B))
  {
    TwoActs(START, Signal(A, false), Scans(A));
  }

  lemma {:induction false} TwoActs(w: World, e: Act, f: Act)
    ensures DoAll(w, [e, f]) == Do(Do(w, e), f)
  {
    assert [e, f][1..] == [f] && [f][1..] == [];
    var once := Do(w, e);
    assert DoAll(once, [f]) == DoAll(Do(once, f), []);
  }

  lemma {:induction false} FourActs(e: Act, f: Act, g: Act, h: Act)
    ensures DoAll(START, [e, f, g, h]) == Do(Do(Do(Do(START, e), f), g), h)
  {
    assert [e, f, g, h][1..] == [f, g, h] && [f, g, h][1..] == [g, h];
    var once := Do(START, e);
    TwoActs(Do(once, f), g, h);
    assert DoAll(once, [f, g, h]) == DoAll(Do(once, f), [g, h]);
  }
}
