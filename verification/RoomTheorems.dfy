/** What one room operation promises to the rest of the system, whatever the room and the message. */
module RoomTheorems {
  import opened Common
  import opened RelayTypes
  import opened RoomRules
  import opened Replica
  import opened RoomProofs

  // ----- every change is announced, once -----

  ghost predicate Carries(ns: seq<News>, s: int) {
    exists n :: n in ns && n.fact.seqNo == s
  }

  /** Each number in (from, to] occurs exactly once, and no other number occurs. */
  ghost predicate NumbersOnce(ns: seq<News>, from: int, last: int) {
    && |ns| == last - from
    && (forall n | n in ns :: from < n.fact.seqNo <= last && multiset(ns)[n] == 1)
    && (forall n, m | n in ns && m in ns && n.fact.seqNo == m.fact.seqNo :: n == m)
    && (forall s | from < s <= last :: Carries(ns, s))
  }

  /** A row the news does not mention did not change. */
  ghost predicate NoneSilent(a: RoomState, b: RoomState, ns: seq<News>) {
    forall t | t in b.rows :: (t in a.rows && a.rows[t] == b.rows[t]) || RowNews(b.rows[t]) in ns
  }

  /** The messages carry each new number exactly once, turn knowledge of a into knowledge of b, and miss no change. */
  ghost predicate AnnouncedOnce(a: RoomState, b: RoomState, ms: seq<Message>) {
    && Grew(a, b)
    && NumbersOnce(AllNews(ms), a.top, b.top)
    && LearnAll(Snapshot(a), AllNews(ms)) == Snapshot(b)
    && NoneSilent(a, b, AllNews(ms))
  }

  lemma {:induction false} DistinctOnce(ns: seq<News>)
    requires forall i, j | 0 <= i < j < |ns| :: ns[i] != ns[j]
    ensures forall n | n in ns :: multiset(ns)[n] == 1
  {
    if ns != [] {
      DistinctOnce(ns[1..]);
      assert ns == [ns[0]] + ns[1..];
      assert ns[0] !in ns[1..];
    }
  }

  lemma OrderedNumbersOnce(ns: seq<News>, from: int)
    requires forall i | 0 <= i < |ns| :: ns[i].fact.seqNo == from + 1 + i
    ensures NumbersOnce(ns, from, from + |ns|)
  {
    DistinctOnce(ns);
    forall s | from < s <= from + |ns|
      ensures Carries(ns, s)
    {
      assert ns[s - from - 1] in ns;
    }
  }

  lemma NumbersOnceReordered(ns: seq<News>, os: seq<News>, from: int, last: int)
    requires NumbersOnce(ns, from, last) && multiset(ns) == multiset(os)
    ensures NumbersOnce(os, from, last)
  {
    SameMembers(ns, os);
    assert |os| == |ns| by {
      assert |multiset(os)| == |os| && |multiset(ns)| == |ns|;
    }
    forall s | from < s <= last
      ensures Carries(os, s)
    {
      assert Carries(ns, s);
    }
  }

  lemma ChangesAreNews(a: RoomState, b: RoomState, ns: seq<News>)
    requires WellFormed(a) && WellFormed(b) && Announced(a, b, ns)
    ensures NoneSilent(a, b, ns)
  {
    forall t | t in b.rows && !(t in a.rows && a.rows[t] == b.rows[t])
      ensures RowNews(b.rows[t]) in ns
    {
      LearnAllHighest(Snapshot(a), ns, t);
      assert Snapshot(b)[t] == RowNews(b.rows[t]).fact;
      assert RowOk(t, b.rows[t], b.top);
    }
  }

  lemma FreshIsUnambiguous(a: RoomState, ns: seq<News>)
    requires WellFormed(a) && NumbersOnce(ns, a.top, a.top + |ns|)
    ensures Unambiguous(Snapshot(a), ns)
  {
    forall n | n in ns && n.ticketId in Snapshot(a)
      ensures n.fact.seqNo != Snapshot(a)[n.ticketId].seqNo
    {
      assert RowOk(n.ticketId, a.rows[n.ticketId], a.top);
    }
  }

  /** Announcing in number order gives the exactly-once reading, and merging the messages keeps it. */
  lemma OrderedThenOnce(a: RoomState, b: RoomState, ms: seq<Message>, out: seq<Message>)
    requires WellFormed(a) && WellFormed(b) && Announced(a, b, AllNews(ms))
    requires multiset(AllNews(out)) == multiset(AllNews(ms))
    ensures AnnouncedOnce(a, b, out)
  {
    var ns, os := AllNews(ms), AllNews(out);
    OrderedNumbersOnce(ns, a.top);
    NumbersOnceReordered(ns, os, a.top, b.top);
    FreshIsUnambiguous(a, ns);
    ArrivalOrderIrrelevant(Snapshot(a), ns, os);
    ChangesAreNews(a, b, ns);
    SameMembers(ns, os);
  }

  function Broadcast(action: Action): seq<Message> {
    if action.Ok? then action.broadcast else []
  }

  lemma MergeOne(m: Message)
    requires m.CheckIns? ==> m.rows != []
    ensures Merge([m]) == [m]
  {
    PartsFirst(m, []);
    assert [m] + [] == [m];
    assert RowsIn([]) == [] && NotRows([]) == [];
    if m.CheckIns? {
      assert RowsIn([m]) == m.rows && NotRows([m]) == [];
    } else {
      assert RowsIn([m]) == [] && NotRows([m]) == [m];
    }
  }

  /** What a phone's message tells, before it is merged: every change in number order. */
  lemma PhoneTold(st: RoomState, who: Sender, raw: Raw, now: int) returns (told: seq<Message>)
    requires Sane(st)
    ensures var o := FromPhone(st, who, raw, now);
            && PhoneGood(st, o.room, told, who.passId)
            && Broadcast(o.action) == Merge(told)
            && (o.action.Reject? ==> o.room == st)
  {
    var o := FromPhone(st, who, raw, now);
    told := Broadcast(o.action);
    NothingGood(st, who.passId);
    if o.action.Reject? {
    } else if raw.json.t == Str("claims") {
      told := Batch(Progress(st, [], None), who, raw.json.items.value, now).broadcast;
      BatchGood(st, Progress(st, [], None), who, raw.json.items.value, now);
    } else {
      if raw.json.t == Str("in") {
        ClaimGood(st, who, raw.json.ticketId, raw.json.at, now);
      } else {
        UnclaimGood(st, who, raw.json.ticketId);
      }
      if told != [] {
        MergeOne(told[0]);
      }
    }
  }

  /** A phone's message keeps the room sane, touches only what its pass may touch, and is announced exactly once. */
  lemma FromPhoneAnnouncedOnce(st: RoomState, who: Sender, raw: Raw, now: int)
    requires Sane(st)
    ensures var o := FromPhone(st, who, raw, now);
            && Sane(o.room)
            && PhoneStep(st, o.room, who.passId)
            && AnnouncedOnce(st, o.room, Broadcast(o.action))
            && (o.action.Reject? ==> o.room == st)
  {
    var o := FromPhone(st, who, raw, now);
    var told := PhoneTold(st, who, raw, now);
    MergeKeepsNews(told);
    OrderedThenOnce(st, o.room, told, Broadcast(o.action));
  }

  /** The server's message likewise; it opens no claim. */
  lemma FromServerAnnouncedOnce(st: RoomState, body: ServerBody, order: seq<Row>)
    requires Sane(st)
    requires IsRevoke(body) ==> ListsClaims(st.rows, body.passId.s, order)
    ensures var o := FromServer(st, body, order);
            o.Some? ==>
              && o.value.action.Ok?
              && Sane(o.value.room)
              && NoNewClaims(st, o.value.room)
              && AnnouncedOnce(st, o.value.room, o.value.action.broadcast)
  {
    var o := FromServer(st, body, order);
    FromServerGood(st, body, order);
    if o.Some? {
      OrderedThenOnce(st, o.value.room, o.value.action.broadcast, o.value.action.broadcast);
    }
  }

  /** Only a revoke adds to the revoked passes, and it leaves its pass no open claim. */
  lemma FromServerRevokes(st: RoomState, body: ServerBody, order: seq<Row>)
    requires Sane(st)
    requires IsRevoke(body) ==> ListsClaims(st.rows, body.passId.s, order)
    ensures var o := FromServer(st, body, order);
            o.Some? ==>
              && o.value.room.revoked == st.revoked + (if IsRevoke(body) then {body.passId.s} else {})
              && (IsRevoke(body) ==>
                    forall t | t in o.value.room.rows :: !OpenClaim(o.value.room.rows[t], body.passId.s))
  {
    var o := FromServer(st, body, order);
    if o.Some? && IsRevoke(body) {
      var marked := st.(revoked := st.revoked + {body.passId.s});
      assert o.value.room == TakeBack(Progress(marked, [], None), order).room;
      RevokeRows(st, body.passId.s, order);
    } else if o.Some? {
      assert o.value.room.revoked == st.revoked;
    }
  }

  // ----- a confirmed check-in -----

  predicate Confirmed(st: RoomState, t: string) {
    Standing(st.rows, t) && st.rows[t].confirmed
  }

  /** No phone message changes a confirmed check-in's row. */
  lemma PhonesKeepConfirmed(st: RoomState, who: Sender, raw: Raw, now: int, t: string)
    requires Sane(st) && Confirmed(st, t)
    ensures var room := FromPhone(st, who, raw, now).room; t in room.rows && room.rows[t] == st.rows[t]
  {
    FromPhoneAnnouncedOnce(st, who, raw, now);
  }

  /** The server's undo of exactly this check-in, or its announcement of another one for the same ticket. */
  predicate Overrides(body: ServerBody, t: string, at: int) {
    && body.Body?
    && body.ticketId == Str(t)
    && body.at.Some?
    && (if body.kind == Str("undo") then body.at.value == at
        else body.kind == Str("in") && body.at.value != at)
  }

  /** A server message changes a confirmed check-in's row exactly when it overrides it. */
  lemma ServerChangesConfirmedIff(st: RoomState, body: ServerBody, order: seq<Row>, t: string)
    requires Sane(st) && Confirmed(st, t)
    requires IsRevoke(body) ==> ListsClaims(st.rows, body.passId.s, order)
    requires FromServer(st, body, order).Some?
    ensures var room := FromServer(st, body, order).value.room;
            t in room.rows && (room.rows[t] != st.rows[t] <==> Overrides(body, t, st.rows[t].atMs))
  {
    if IsRevoke(body) {
      RevokeRows(st, body.passId.s, order);
    } else {
      assert RowOk(t, st.rows[t], st.top);
    }
  }

  // ----- a claim -----

  /** Just this pass's claim on the ticket, made at `at`. */
  predicate ClaimedAt(rows: map<string, Row>, t: string, who: Sender, at: int, seqNo: int) {
    t in rows && rows[t] == Row(t, at, Some(who.gate), Some(who.passId), false, seqNo, None)
  }
}
