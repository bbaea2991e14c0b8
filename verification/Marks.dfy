/** The phone's own marks (src/app/door/offline/rules.ts). */
module Marks {
  import opened Common
  import opened RelayTypes
  import opened RoomRules
  import opened Replica
  import opened RoomProofs
  import opened RoomTheorems
  import opened Backlog
  import Retry

  const SAME_CHECK_IN_MS: int := 1_000

  datatype Source = Own | Server | Relay

  /** `knownSince`: the first time this phone knew the server to have the check-in; None before. */
  datatype Mark = Mark(at: int, gate: string, byThisPhone: bool, knownSince: Option<int>, source: Source)

  // ----- the two rules -----

  /** The new mark; None for no change. */
  function MarkFromRelay(existing: Option<Mark>, row: WireRow, now: int): Option<Mark> {
    if existing.None? then
      Some(Mark(row.at, if row.gate.Some? then row.gate.value else "?", false,
                if row.confirmed then Some(now) else None, Relay))
    else
      var m := existing.value;
      if m.source.Relay? && (m.knownSince.None? || row.confirmed) then
        Some(m.(at := row.at, gate := if row.gate.Some? then row.gate.value else m.gate,
                knownSince := if !row.confirmed then None else if m.knownSince.Some? then m.knownSince else Some(now)))
      else None
  }

  /** Another gate's claim, which nobody vouched for yet. */
  predicate OpenRelayClaim(m: Mark) {
    m.source.Relay? && m.knownSince.None?
  }

  predicate UndoRemoves(mark: Option<Mark>, remover: Remover, at: int) {
    && mark.Some?
    && !(mark.value.source.Own? && mark.value.knownSince.None?)
    && (if remover.ByGate? then OpenRelayClaim(mark.value)
        else if OpenRelayClaim(mark.value) then mark.value.at <= at + UNDO_SLACK_MS
        else -SAME_CHECK_IN_MS < mark.value.at - at < SAME_CHECK_IN_MS)
  }

  // ----- hearing -----

  function MarkOf(marks: map<string, Mark>, t: string): Option<Mark> {
    if t in marks then Some(marks[t]) else None
  }

  function AsWire(t: string, f: Fact): WireRow
    requires f.In?
  {
    WireRow(t, f.at, f.gate, f.confirmed, f.seqNo)
  }

  /** One row or undo. Rows of tickets that are not on the phone's list are passed over. */
  function HearMark(marks: map<string, Mark>, onList: set<string>, n: News, now: int): map<string, Mark> {
    match n.fact
    case In(_, _, _, _) =>
      var next := MarkFromRelay(MarkOf(marks, n.ticketId), AsWire(n.ticketId, n.fact), now);
      if n.ticketId in onList && next.Some? then marks[n.ticketId := next.value] else marks
    case Out(remover, at, _) =>
      if UndoRemoves(MarkOf(marks, n.ticketId), remover, at) then marks - {n.ticketId} else marks
  }

  function HearMarks(marks: map<string, Mark>, onList: set<string>, ns: seq<News>, now: int): map<string, Mark>
    decreases ns
  {
    if ns == [] then marks else HearMarks(HearMark(marks, onList, ns[0], now), onList, ns[1..], now)
  }

  // ----- which marks move, and how -----

  /** The phone's own admit, which the server has not had. */
  predicate OwnUnsent(m: Mark) {
    m.source.Own? && m.knownSince.None?
  }

  /** No news of other tickets moves a mark. */
  lemma {:induction false} OthersStay(marks: map<string, Mark>, onList: set<string>, n: News, now: int, t: string)
    requires n.ticketId != t
    ensures MarkOf(HearMark(marks, onList, n, now), t) == MarkOf(marks, t)
  {
  }

  /**
   * A row never takes a mark away. It sets one for a listed ticket without; changes one of the relay's that nobody
   * vouched for, or any of the relay's if the row is confirmed; and leaves every other, the phone's own and the
   * server's first of all.
   */
  lemma {:induction false} RowMovesIff(marks: map<string, Mark>, onList: set<string>, n: News, now: int)
    requires n.fact.In?
    ensures var t, row := n.ticketId, n.fact;
            var next := MarkOf(HearMark(marks, onList, n, now), t);
            && (t in onList && t !in marks ==>
                  next == Some(Mark(row.at, if row.gate.Some? then row.gate.value else "?", false,
                                    if row.confirmed then Some(now) else None, Relay)))
            && (t in marks && t in onList && marks[t].source.Relay? && (row.confirmed || marks[t].knownSince.None?) ==>
                  && next.Some? && next.value.at == row.at && next.value.source.Relay?
                  && next.value.byThisPhone == marks[t].byThisPhone
                  && next.value.gate == (if row.gate.Some? then row.gate.value else marks[t].gate)
                  && next.value.knownSince ==
                     (if !row.confirmed then None
                      else if marks[t].knownSince.Some? then marks[t].knownSince else Some(now)))
            && (t !in onList ||
                (t in marks && (!marks[t].source.Relay? || (marks[t].knownSince.Some? && !row.confirmed))) ==>
                  next == MarkOf(marks, t))
  {
  }

  /**
   * An undo takes a mark away exactly in these cases, and changes none. Never the phone's own unsent admit. A claim
   * heard of, which nobody vouched for: any gate's undo, or the server's of a check-in at most five seconds older. Any
   * other: only the server's undo of a check-in less than a second apart.
   */
  lemma {:induction false} UndoRemovesIff(marks: map<string, Mark>, onList: set<string>, n: News, now: int)
    requires n.fact.Out? && n.ticketId in marks
    ensures var m, remover, at := marks[n.ticketId], n.fact.remover, n.fact.at;
            var after := HearMark(marks, onList, n, now);
            && (n.ticketId !in after <==>
                  && !OwnUnsent(m)
                  && (if m.source.Relay? && m.knownSince.None? then remover.ByGate? || m.at - at <= 5_000
                      else remover.ByServer? && -1_000 < m.at - at < 1_000))
            && (n.ticketId in after ==> after == marks)
  {
  }

  // ----- what one ticket's mark becomes -----

  function MarkAfter(mark: Option<Mark>, listed: bool, t: string, f: Fact, now: int): Option<Mark> {
    match f
    case In(_, _, _, _) =>
      var next := MarkFromRelay(mark, AsWire(t, f), now);
      if listed && next.Some? then next else mark
    case Out(remover, at, _) => if UndoRemoves(mark, remover, at) then None else mark
  }

  lemma {:induction false} HearMarkOne(marks: map<string, Mark>, onList: set<string>, n: News, now: int, t: string)
    ensures MarkOf(HearMark(marks, onList, n, now), t) ==
            if n.ticketId == t then MarkAfter(MarkOf(marks, t), t in onList, t, n.fact, now) else MarkOf(marks, t)
  {
  }

  lemma {:induction false} Unheard(marks: map<string, Mark>, onList: set<string>, ns: seq<News>, now: int, t: string)
    requires forall n | n in ns :: n.ticketId != t
    ensures MarkOf(HearMarks(marks, onList, ns, now), t) == MarkOf(marks, t)
    decreases ns
  {
    if ns != [] {
      assert ns[0] in ns;
      HearMarkOne(marks, onList, ns[0], now, t);
      Unheard(HearMark(marks, onList, ns[0], now), onList, ns[1..], now, t);
    }
  }

  /** Heard about once, a ticket's mark changes by that once. */
  lemma {:induction false} HeardOnce(marks: map<string, Mark>, onList: set<string>, ns: seq<News>, now: int, n: News)
    requires multiset(ns)[n] == 1 && forall m | m in ns && m.ticketId == n.ticketId :: m == n
    ensures MarkOf(HearMarks(marks, onList, ns, now), n.ticketId) ==
            MarkAfter(MarkOf(marks, n.ticketId), n.ticketId in onList, n.ticketId, n.fact, now)
    decreases ns
  {
    assert n in multiset(ns);
    HearMarkOne(marks, onList, ns[0], now, n.ticketId);
    assert ns == [ns[0]] + ns[1..];
    if ns[0] == n {
      assert n !in multiset(ns[1..]);
      assert n !in ns[1..];
      Unheard(HearMark(marks, onList, n, now), onList, ns[1..], now, n.ticketId);
    } else {
      assert ns[0] in ns;
      HeardOnce(HearMark(marks, onList, ns[0], now), onList, ns[1..], now, n);
    }
  }

  // ----- a catch-up -----

  /** The marks after a catch-up from a cursor. */
  ghost function CaughtUp(st: RoomState, afterSeq: int, epoch: Option<string>, marks: map<string, Mark>,
                          onList: set<string>, now: int): map<string, Mark>
    requires WellFormed(st)
  {
    HearMarks(marks, onList, AllNews(BacklogOf(st, afterSeq, epoch)), now)
  }

  /** The catch-up tells of this ticket. */
  predicate TellsOf(st: RoomState, afterSeq: int, epoch: Option<string>, t: string) {
    t in st.rows && Start(st, afterSeq, epoch) < st.rows[t].seqNo
  }

  lemma {:induction false} CatchUpOne(st: RoomState, afterSeq: int, epoch: Option<string>, marks: map<string, Mark>,
                                      onList: set<string>, now: int, t: string)
    requires WellFormed(st)
    ensures MarkOf(CaughtUp(st, afterSeq, epoch, marks, onList, now), t) ==
            if TellsOf(st, afterSeq, epoch, t)
            then MarkAfter(MarkOf(marks, t), t in onList, t, RowNews(st.rows[t]).fact, now) else MarkOf(marks, t)
  {
    var ns := AllNews(BacklogOf(st, afterSeq, epoch));
    BacklogExact(st, afterSeq, epoch);
    if TellsOf(st, afterSeq, epoch, t) {
      var n := RowNews(st.rows[t]);
      assert RowOk(t, st.rows[t], st.top);
      assert Missed(st, Start(st, afterSeq, epoch), n);
      HeardOnce(marks, onList, ns, now, n);
    } else {
      assert forall n | n in ns :: Missed(st, Start(st, afterSeq, epoch), n);
      Unheard(marks, onList, ns, now, t);
    }
  }

  /**
   * A phone that was away: after its catch-up, a ticket it was told of is marked as in exactly when it stands in the
   * room, if and only if the phone had a mark or lists it (a ticket that stands), or had no mark or one that this undo
   * removes (one taken back).
   */
  lemma {:induction false} MarkAgreesIff(st: RoomState, afterSeq: int, epoch: Option<string>, marks: map<string, Mark>,
                                         onList: set<string>, now: int, t: string)
    requires WellFormed(st) && TellsOf(st, afterSeq, epoch, t)
    ensures var after := CaughtUp(st, afterSeq, epoch, marks, onList, now);
            var row := st.rows[t];
            (t in after <==> Standing(st.rows, t)) <==>
              if row.removed.None? then t in marks || t in onList
              else t !in marks || UndoRemoves(Some(marks[t]), row.removed.value, row.atMs)
  {
    CatchUpOne(st, afterSeq, epoch, marks, onList, now, t);
  }

  /** A phone without marks ends with exactly the standing tickets of its list, each as the room has it. */
  lemma {:induction false} NewPhoneAgrees(st: RoomState, afterSeq: int, onList: set<string>, now: int, t: string)
    requires WellFormed(st)
    ensures var after := CaughtUp(st, afterSeq, None, map[], onList, now);
            && (t in after <==> t in onList && Standing(st.rows, t))
            && (t in after ==>
                  && after[t].at == st.rows[t].atMs && after[t].source.Relay? && !after[t].byThisPhone
                  && (after[t].knownSince.Some? <==> st.rows[t].confirmed)
                  && (st.rows[t].gate.Some? ==> after[t].gate == st.rows[t].gate.value))
  {
    CatchUpOne(st, afterSeq, None, map[], onList, now, t);
    if t in st.rows {
      assert RowOk(t, st.rows[t], st.top);
    }
  }

  // ----- a merged batch -----

  /** Taking a claim back and making it again, in one batch, is told row first. */
  lemma {:induction false} RenewalTold(st: RoomState, who: Sender, t: string, at: int, length: nat, now: int)
    requires WellFormed(st) && Plausible(at, now) && length <= MAX_BATCH_BYTES
    requires t in st.rows && OpenClaim(st.rows[t], who.passId) && Retry.BelowCaps(st, who.passId)
    ensures var claim := Retry.ClaimRow(t, at, who, st.top + 2);
            Broadcast(FromPhone(st, who, Retry.TakeBackAndClaim(t, at, length), now).action) ==
            [CheckIns([Wire(claim)]), UndoMessage(Tombstone(st, st.rows[t]))]
  {
    var undo, claim := UndoMessage(Tombstone(st, st.rows[t])), CheckIns([Wire(Retry.ClaimRow(t, at, who, st.top + 2))]);
    var mid := Put(st, Tombstone(st, st.rows[t]));
    assert RowOk(t, st.rows[t], st.top);
    Retry.UndoFirst(st, who, t, at, now);
    Retry.TombstoneKeepsCounts(st, st.rows[t]);
    ClaimTold(mid, who, t, at, now);
    UndoTold(st, who, t, at, now);
    Retry.BatchOfTwo(Progress(st, [], None), who, Retry.Renewal(t, at)[0], Retry.Renewal(t, at)[1], now);
    assert Batch(Progress(st, [], None), who, Retry.Renewal(t, at), now).broadcast == [undo, claim];
    MergedTwo(undo, claim);
  }

  lemma {:induction false} ClaimTold(mid: RoomState, who: Sender, t: string, at: int, now: int)
    requires IsUuid(t) && Plausible(at, now) && t in mid.rows && mid.rows[t].removed.Some?
    requires Retry.BelowCaps(mid, who.passId)
    ensures var step := OneItem(mid, who, Retry.Renewal(t, at)[1], now);
            && step.Some? && step.value.action.Ok?
            && step.value.action.broadcast == [CheckIns([Wire(Retry.ClaimRow(t, at, who, mid.top + 1))])]
  {
    assert OneItem(mid, who, Retry.Renewal(t, at)[1], now) == Claim(mid, who, Str(t), Num(at), now);
  }

  lemma {:induction false} UndoTold(st: RoomState, who: Sender, t: string, at: int, now: int)
    requires IsUuid(t) && t in st.rows && OpenClaim(st.rows[t], who.passId)
    ensures OneItem(st, who, Retry.Renewal(t, at)[0], now).value.action.broadcast ==
            [UndoMessage(Tombstone(st, st.rows[t]))]
  {
    assert OneItem(st, who, Retry.Renewal(t, at)[0], now) == Unclaim(st, who, Str(t));
  }

  lemma {:induction false} MergedTwo(undo: Message, claim: Message)
    requires undo.Undo? && claim.CheckIns? && claim.rows != []
    ensures Merge([undo, claim]) == [claim, undo]
  {
    assert [undo, claim][1..] == [claim] && [claim][1..] == [];
    assert RowsIn([]) == [] && NotRows([]) == [];
    assert RowsIn([claim]) == claim.rows && NotRows([claim]) == [];
    assert RowsIn([undo, claim]) == claim.rows && NotRows([undo, claim]) == [undo];
    assert CheckIns(claim.rows) == claim;
  }

  /**
   * Another phone that hears this keeps a mark exactly when it had one that the server or the phone itself stands for.
   * Otherwise the undo, heard last, removes what the row set, though the ticket stands in the room.
   */
  lemma {:induction false} RenewalLosesMarkIff(st: RoomState, who: Sender, t: string, at: int, length: nat, now: int,
                                               marks: map<string, Mark>, onList: set<string>, heardAt: int)
    requires WellFormed(st) && Plausible(at, now) && length <= MAX_BATCH_BYTES
    requires t in st.rows && OpenClaim(st.rows[t], who.passId) && Retry.BelowCaps(st, who.passId)
    ensures var o := FromPhone(st, who, Retry.TakeBackAndClaim(t, at, length), now);
            && Standing(o.room.rows, t)
            && (t in HearMarks(marks, onList, AllNews(Broadcast(o.action)), heardAt) <==>
                  t in marks && !OpenRelayClaim(marks[t]))
  {
    var claim, tomb := Retry.ClaimRow(t, at, who, st.top + 2), Tombstone(st, st.rows[t]);
    assert RowOk(t, st.rows[t], st.top);
    Retry.RenewOpenClaim(st, who, t, at, length, now);
    RenewalTold(st, who, t, at, length, now);
    NewsCons(CheckIns([Wire(claim)]), [UndoMessage(tomb)]);
    WiresOne(Wire(claim));
    NewsOfTombstone(tomb);
    var ns := [WireNews(Wire(claim)), RowNews(tomb)];
    assert [CheckIns([Wire(claim)])] + [UndoMessage(tomb)] == [CheckIns([Wire(claim)]), UndoMessage(tomb)];
    assert [WireNews(Wire(claim))] + [RowNews(tomb)] == ns;
    TwoHeard(marks, onList, ns[0], ns[1], heardAt, t);
  }

  lemma {:induction false} TwoHeard(
    marks: map<string, Mark>, onList: set<string>, m: News, n: News, now: int, t: string)
    requires m.ticketId == n.ticketId == t
    ensures MarkOf(HearMarks(marks, onList, [m, n], now), t) ==
            MarkAfter(MarkAfter(MarkOf(marks, t), t in onList, t, m.fact, now), t in onList, t, n.fact, now)
  {
    assert [m, n][1..] == [n] && [n][1..] == [];
    var once := HearMark(marks, onList, m, now);
    assert HearMarks(once, onList, [n], now) == HearMarks(HearMark(once, onList, n, now), onList, [], now);
    HearMarkOne(marks, onList, m, now, t);
    HearMarkOne(once, onList, n, now, t);
  }

  // ----- the marks, changed in place -----

  lemma {:induction false} NextHeard(
    marks: map<string, Mark>, onList: set<string>, rows: seq<WireRow>, i: nat, now: int)
    requires i < |rows|
    ensures HearMarks(marks, onList, WiresNews(rows[i..]), now) ==
            HearMarks(HearMark(marks, onList, WireNews(rows[i]), now), onList, WiresNews(rows[i + 1..]), now)
  {
    assert rows[i..][1..] == rows[i + 1..];
    assert WiresNews(rows[i..])[1..] == WiresNews(rows[i + 1..]);
  }

  class PhoneMarks {
    var marks: map<string, Mark>

    method LearnRelayRows(rows: seq<WireRow>, onList: set<string>, now: int)
      modifies this
      ensures marks == HearMarks(old(marks), onList, WiresNews(rows), now)
    {
      var i := 0;
      while i < |rows|
        invariant 0 <= i <= |rows|
        invariant HearMarks(old(marks), onList, WiresNews(rows), now) ==
                  HearMarks(marks, onList, WiresNews(rows[i..]), now)
      {
        NextHeard(marks, onList, rows, i, now);
        var row := rows[i];
        if row.ticketId in onList {
          var next := MarkFromRelay(MarkOf(marks, row.ticketId), row, now);
          if next.Some? { marks := marks[row.ticketId := next.value]; }
        }
        i := i + 1;
      }
      assert rows[i..] == [];
    }

    /** `again`: the phone's own admit the server has not had, which it tells the room once more. */
    method LearnRelayUndo(id: string, remover: Remover, at: int) returns (again: Option<int>)
      modifies this
      ensures marks == if UndoRemoves(MarkOf(old(marks), id), remover, at) then old(marks) - {id} else old(marks)
      ensures again.Some? <==> id in old(marks) && old(marks)[id].source.Own? && old(marks)[id].knownSince.None?
      ensures again.Some? ==> id in marks && marks[id] == old(marks)[id] && again.value == marks[id].at
    {
      again := None;
      var mark := MarkOf(marks, id);
      if UndoRemoves(mark, remover, at) {
        marks := marks - {id};
      } else if mark.Some? && mark.value.source.Own? && mark.value.knownSince.None? {
        again := Some(mark.value.at);
      }
    }
  }
}
