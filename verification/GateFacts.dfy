/** What one act at a gate does. */
module GateFacts {
  import opened Common
  import opened GateFlow
  import opened FirstAdmit

  /** What the gate goes by: with signal the server, without it what the phone knows. */
  function GoesBy(w: World, id: GateId): Option<CheckIn> {
    if At(w, id).online then w.server else At(w, id).knowsIn
  }

  /** A gate that did not act: with signal and no news it gets the server's; nothing else about it changes. */
  predicate OnlyHears(was: Gate, now: Gate, server: Option<CheckIn>) {
    now == was.(knowsIn := if was.online && was.knowsIn.None? then server else was.knowsIn)
  }

  /**
   * A scan lets in exactly whoever the gate knows nothing of, as of this minute. Without signal that waits in the
   * outbox; with it, it is the server's, and the other gate hears of it. Each scan takes a minute and one line.
   */
  lemma {:induction false} ScanIff(w: World, id: GateId)
    ensures var next := Scan(w, id);
            var gate, after := At(w, id), At(next, id);
            var mine := CheckIn(id, w.minute, !gate.online);
            && next.minute == w.minute + 1 && next.doubleEntry == w.doubleEntry && after.online == gate.online
            && (GoesBy(w, id).None? ==>
                  && next.log == w.log + [Admitted(id, !gate.online)]
                  && after.answer == Some(Admit(!gate.online)) && after.knowsIn == Some(mine)
                  && next.server == (if gate.online then Some(mine) else w.server)
                  && after.outbox == gate.outbox + (if gate.online then [] else [mine])
                  && (if gate.online then OnlyHears(At(w, Other(id)), At(next, Other(id)), next.server)
                      else At(next, Other(id)) == At(w, Other(id))))
            && (GoesBy(w, id).Some? ==>
                  && next.log == w.log + [Refused(id, !gate.online)]
                  && after.answer == Some(Refuse(GoesBy(w, id).value, !gate.online))
                  && after.knowsIn == GoesBy(w, id) && after.outbox == gate.outbox
                  && next.server == w.server && At(next, Other(id)) == At(w, Other(id)))
  {
  }

  /** What replaying an outbox reports: each admit, the first as the check-in if the server had none. */
  predicate Reports(lines: seq<Line>, outbox: seq<CheckIn>, had: Option<CheckIn>, has: Option<CheckIn>) {
    && |lines| == |outbox|
    && forall i | 0 <= i < |outbox| ::
         if i == 0 && had.None? then lines[i] == ReplayAdmits(outbox[i])
         else has.Some? && lines[i] == DoubleEntry(outbox[i], has.value)
  }

  function ServerAfter(server: Option<CheckIn>, outbox: seq<CheckIn>): Option<CheckIn> {
    if server.None? && outbox != [] then Some(outbox[0]) else server
  }

  lemma {:induction false} ReplayReports(w: World, outbox: seq<CheckIn>) returns (lines: seq<Line>)
    ensures var next := Replay(w, outbox);
            && next.server == ServerAfter(w.server, outbox)
            && next.doubleEntry == (w.doubleEntry || |outbox| > (if w.server.None? then 1 else 0))
            && next.log == w.log + lines && Reports(lines, outbox, w.server, next.server)
            && next == w.(server := next.server, doubleEntry := next.doubleEntry, log := next.log)
    decreases outbox
  {
    lines := [];
    if outbox == [] {
      assert w.log + [] == w.log;
    } else {
      var once := Replayed(w, outbox[0]);
      var rest := ReplayReports(once, outbox[1..]);
      var line := once.log[|w.log|];
      lines := [line] + rest;
      assert once.log == w.log + [line];
      assert w.log + [line] + rest == w.log + ([line] + rest);
      assert forall i | 0 < i < |outbox| :: lines[i] == rest[i - 1] && outbox[i] == outbox[1..][i - 1];
    }
  }

  /** Losing the signal is one line and a minute. */
  lemma {:induction false} LostIff(w: World, id: GateId)
    ensures var next := SetSignal(w, id, false);
            && next.minute == w.minute + 1 && next.server == w.server && next.doubleEntry == w.doubleEntry
            && next.log == w.log + [LostSignal(id)]
            && At(next, id) == At(w, id).(online := false) && At(next, Other(id)) == At(w, Other(id))
  {
  }

  /**
   * With the signal back, the outbox is replayed and empty: its first admit is the check-in if the server had none, the
   * others are double entries. The gate knows the server's check-in, and the other gate hears of it.
   */
  lemma {:induction false} BackIff(w: World, id: GateId) returns (lines: seq<Line>)
    ensures var next := SetSignal(w, id, true);
            var gate, after := At(w, id), At(next, id);
            && next.minute == w.minute + 1
            && next.server == ServerAfter(w.server, gate.outbox)
            && next.doubleEntry == (w.doubleEntry || |gate.outbox| > (if w.server.None? then 1 else 0))
            && next.log == w.log + [HasSignal(id)] + lines && Reports(lines, gate.outbox, w.server, next.server)
            && after.online && after.outbox == [] && after.answer == gate.answer
            && after.knowsIn == (if next.server.Some? then next.server else gate.knowsIn)
            && OnlyHears(At(w, Other(id)), At(next, Other(id)), next.server)
  {
    lines := ReplayReports(Back(w, id), At(w, id).outbox);
  }
}
