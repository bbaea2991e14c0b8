/**
 * What messages mean to a listener: per ticket, the fact with the highest number, however they arrive.
 *
 * Also what merging messages does to the order of what they say, and what it leaves.
 */
module Replica {
  import opened Common
  import opened RelayTypes
  import opened RoomRules

  type Replica = map<string, Fact>

  function WireNews(r: WireRow): News {
    News(r.ticketId, In(r.at, r.gate, r.confirmed, r.seqNo))
  }

  function RowNews(row: Row): News {
    News(row.ticketId,
         if row.removed.None? then In(row.atMs, row.gate, row.confirmed, row.seqNo)
         else Out(row.removed.value, row.atMs, row.seqNo))
  }

  function WiresNews(rows: seq<WireRow>): seq<News> {
    if rows == [] then [] else [WireNews(rows[0])] + WiresNews(rows[1..])
  }

  function RowsNews(rows: seq<Row>): seq<News> {
    if rows == [] then [] else [RowNews(rows[0])] + RowsNews(rows[1..])
  }

  function MessageNews(m: Message): seq<News> {
    match m
    case Hello(_, _) => []
    case CheckIns(rows) => WiresNews(rows)
    case Undo(ticketId, remover, at, seqNo) => [News(ticketId, Out(remover, at, seqNo))]
  }

  /** Everything a list of messages says, in the order it says it. */
  function AllNews(ms: seq<Message>): seq<News> {
    if ms == [] then [] else MessageNews(ms[0]) + AllNews(ms[1..])
  }

  function Learn(m: Replica, n: News): Replica {
    if n.ticketId in m && m[n.ticketId].seqNo >= n.fact.seqNo then m else m[n.ticketId := n.fact]
  }

  function LearnAll(m: Replica, ns: seq<News>): Replica
    decreases ns
  {
    if ns == [] then m else LearnAll(Learn(m, ns[0]), ns[1..])
  }

  /** The replica of a listener that knows the whole room. */
  function Snapshot(st: RoomState): Replica {
    map t | t in st.rows :: RowNews(st.rows[t]).fact
  }

  // ----- lists of news -----

  lemma {:induction false} NewsAppend(a: seq<Message>, b: seq<Message>)
    ensures AllNews(a + b) == AllNews(a) + AllNews(b)
  {
    if a == [] {
      assert a + b == b;
    } else {
      assert (a + b)[1..] == a[1..] + b;
      NewsAppend(a[1..], b);
    }
  }

  lemma {:induction false} WiresAppend(a: seq<WireRow>, b: seq<WireRow>)
    ensures WiresNews(a + b) == WiresNews(a) + WiresNews(b)
  {
    if a == [] {
      assert a + b == b;
    } else {
      assert (a + b)[1..] == a[1..] + b;
      WiresAppend(a[1..], b);
    }
  }

  lemma {:induction false} LearnAppend(m: Replica, a: seq<News>, b: seq<News>)
    ensures LearnAll(m, a + b) == LearnAll(LearnAll(m, a), b)
    decreases a
  {
    if a == [] {
      assert a + b == b;
    } else {
      assert (a + b)[1..] == a[1..] + b;
      LearnAppend(Learn(m, a[0]), a[1..], b);
    }
  }

  lemma NewsOfMessage(m: Message)
    ensures AllNews([m]) == MessageNews(m)
  {
    assert [m][1..] == [];
  }

  lemma WiresOne(r: WireRow)
    ensures WiresNews([r]) == [WireNews(r)]
  {
    assert [r][1..] == [];
  }

  lemma NewsOfStanding(row: Row)
    requires row.removed.None?
    ensures AllNews([CheckIns([Wire(row)])]) == [RowNews(row)]
  {
    NewsOfMessage(CheckIns([Wire(row)]));
    WiresOne(Wire(row));
  }

  lemma NewsOfTombstone(row: Row)
    requires row.removed.Some?
    ensures AllNews([UndoMessage(row)]) == [RowNews(row)]
  {
    NewsOfMessage(UndoMessage(row));
  }

  // ----- the highest number wins -----

  ghost predicate Speaks(ns: seq<News>, t: string) {
    exists n :: n in ns && n.ticketId == t
  }

  /** A replica after some news: what it holds per ticket is the highest-numbered of what it had and heard. */
  lemma {:induction false} LearnAllHighest(m: Replica, ns: seq<News>, t: string)
    ensures t in LearnAll(m, ns) <==> t in m || Speaks(ns, t)
    ensures t in LearnAll(m, ns) ==>
              (t in m && LearnAll(m, ns)[t] == m[t]) || News(t, LearnAll(m, ns)[t]) in ns
    ensures t in m ==> LearnAll(m, ns)[t].seqNo >= m[t].seqNo
    ensures forall n | n in ns && n.ticketId == t ::
              t in LearnAll(m, ns) && LearnAll(m, ns)[t].seqNo >= n.fact.seqNo
    decreases ns
  {
    if ns != [] {
      LearnAllHighest(Learn(m, ns[0]), ns[1..], t);
      assert forall n :: n in ns <==> n == ns[0] || n in ns[1..];
    }
  }

  /** Two items of news about one ticket carry different numbers, or are the same item. */
  ghost predicate Unambiguous(m: Replica, ns: seq<News>) {
    && (forall a, b | a in ns && b in ns && a.ticketId == b.ticketId && a.fact.seqNo == b.fact.seqNo :: a == b)
    && (forall a | a in ns && a.ticketId in m && a.fact.seqNo == m[a.ticketId].seqNo :: a.fact == m[a.ticketId])
  }

  /** The order of arrival does not matter. */
  lemma ArrivalOrderIrrelevant(m: Replica, a: seq<News>, b: seq<News>)
    requires multiset(a) == multiset(b)
    requires Unambiguous(m, a)
    ensures LearnAll(m, a) == LearnAll(m, b)
  {
    SameMembers(a, b);
    var ra, rb := LearnAll(m, a), LearnAll(m, b);
    forall t
      ensures t in ra <==> t in rb
      ensures t in ra && t in rb ==> ra[t] == rb[t]
    {
      LearnAllHighest(m, a, t);
      LearnAllHighest(m, b, t);
      if t in ra && t in rb {
        assert ra[t].seqNo <= rb[t].seqNo && rb[t].seqNo <= ra[t].seqNo by {
          if News(t, ra[t]) in a { assert News(t, ra[t]) in b; }
          if News(t, rb[t]) in b { assert News(t, rb[t]) in a; }
        }
      }
    }
  }

  lemma SameMembers<T>(a: seq<T>, b: seq<T>)
    requires multiset(a) == multiset(b)
    ensures forall x :: x in a <==> x in b
  {
    forall x
      ensures x in a <==> x in b
    {
      assert x in a <==> x in multiset(a);
      assert x in b <==> x in multiset(b);
    }
  }

  // ----- merging messages -----

  /** Merging keeps every item of news, exactly as often as it was there. */
  lemma {:induction false} MergeKeepsNews(ms: seq<Message>)
    ensures multiset(AllNews(Merge(ms))) == multiset(AllNews(ms))
  {
    MergeNews(ms);
    MergedParts(ms);
  }

  lemma MergeNews(ms: seq<Message>)
    ensures AllNews(Merge(ms)) == WiresNews(RowsIn(ms)) + AllNews(NotRows(ms))
  {
    var head := if RowsIn(ms) == [] then [] else [CheckIns(RowsIn(ms))];
    NewsAppend(head, NotRows(ms));
    if RowsIn(ms) != [] {
      NewsOfMessage(CheckIns(RowsIn(ms)));
    }
  }

  /** What a list of messages says, in its rows and in the rest of it. */
  ghost predicate InParts(ms: seq<Message>) {
    multiset(WiresNews(RowsIn(ms))) + multiset(AllNews(NotRows(ms))) == multiset(AllNews(ms))
  }

  lemma MoreInFront<T>(x: seq<T>, rows: seq<T>, rest: seq<T>, all: seq<T>)
    requires multiset(rows) + multiset(rest) == multiset(all)
    ensures multiset(x + rows) + multiset(rest) == multiset(x + all)
    ensures multiset(rows) + multiset(x + rest) == multiset(x + all)
  {
  }

  lemma {:induction false} RowsFirst(ms: seq<Message>)
    requires ms != [] && ms[0].CheckIns? && InParts(ms[1..])
    ensures InParts(ms)
  {
    WiresAppend(ms[0].rows, RowsIn(ms[1..]));
    assert NotRows(ms) == NotRows(ms[1..]);
    MoreInFront(WiresNews(ms[0].rows), WiresNews(RowsIn(ms[1..])), AllNews(NotRows(ms[1..])), AllNews(ms[1..]));
  }

  lemma {:induction false} OtherFirst(ms: seq<Message>)
    requires ms != [] && !ms[0].CheckIns? && InParts(ms[1..])
    ensures InParts(ms)
  {
    NewsCons(ms[0], NotRows(ms[1..]));
    assert RowsIn(ms) == RowsIn(ms[1..]);
    MoreInFront(MessageNews(ms[0]), WiresNews(RowsIn(ms[1..])), AllNews(NotRows(ms[1..])), AllNews(ms[1..]));
  }

  lemma {:induction false} MergedParts(ms: seq<Message>)
    ensures InParts(ms)
  {
    if ms != [] {
      MergedParts(ms[1..]);
      if ms[0].CheckIns? {
        RowsFirst(ms);
      } else {
        OtherFirst(ms);
      }
    }
  }

  ghost predicate NewsAscend(ns: seq<News>) {
    forall i, j | 0 <= i < j < |ns| :: ns[i].fact.seqNo < ns[j].fact.seqNo
  }

  lemma {:induction false} AscendSplit(a: seq<News>, b: seq<News>)
    requires NewsAscend(a + b)
    ensures NewsAscend(a) && NewsAscend(b) && forall m, n | m in a && n in b :: m.fact.seqNo < n.fact.seqNo
  {
    var c := a + b;
    assert forall i | 0 <= i < |a| :: c[i] == a[i];
    assert forall i | 0 <= i < |b| :: c[|a| + i] == b[i];
  }

  lemma {:induction false} AscendJoin(a: seq<News>, b: seq<News>)
    requires NewsAscend(a) && NewsAscend(b) && forall m, n | m in a && n in b :: m.fact.seqNo < n.fact.seqNo
    ensures NewsAscend(a + b)
  {
  }

  /** The rows of messages in number order are in number order, and so is the rest. */
  lemma {:induction false} PartsAscend(ms: seq<Message>)
    requires NewsAscend(AllNews(ms))
    ensures NewsAscend(WiresNews(RowsIn(ms))) && NewsAscend(AllNews(NotRows(ms)))
  {
    if ms != [] {
      AscendSplit(MessageNews(ms[0]), AllNews(ms[1..]));
      PartsAscend(ms[1..]);
      PartsMembers(ms[1..]);
      if ms[0].CheckIns? {
        WiresAppend(ms[0].rows, RowsIn(ms[1..]));
        AscendJoin(WiresNews(ms[0].rows), WiresNews(RowsIn(ms[1..])));
        assert NotRows(ms) == NotRows(ms[1..]);
      } else {
        NewsCons(ms[0], NotRows(ms[1..]));
        AscendJoin(MessageNews(ms[0]), AllNews(NotRows(ms[1..])));
        assert RowsIn(ms) == RowsIn(ms[1..]);
      }
    }
  }

  lemma {:induction false} PartsMembers(ms: seq<Message>)
    ensures forall n | n in WiresNews(RowsIn(ms)) || n in AllNews(NotRows(ms)) :: n in AllNews(ms)
  {
    MergedParts(ms);
    forall n | n in WiresNews(RowsIn(ms)) || n in AllNews(NotRows(ms))
      ensures n in AllNews(ms)
    {
      assert n in multiset(AllNews(ms));
    }
  }

  lemma {:induction false} PartsOfMerged(ms: seq<Message>)
    ensures RowsIn(Merge(ms)) == RowsIn(ms) && NotRows(Merge(ms)) == NotRows(ms)
  {
    NoRowsLeft(ms);
    if RowsIn(ms) != [] {
      PartsFirst(CheckIns(RowsIn(ms)), NotRows(ms));
    } else {
      assert Merge(ms) == NotRows(ms);
    }
  }

  lemma PartsFirst(m: Message, ms: seq<Message>)
    ensures RowsIn([m] + ms) == (if m.CheckIns? then m.rows else []) + RowsIn(ms)
    ensures NotRows([m] + ms) == (if m.CheckIns? then [] else [m]) + NotRows(ms)
  {
    assert ([m] + ms)[1..] == ms;
  }

  lemma {:induction false} NoRowsLeft(ms: seq<Message>)
    ensures RowsIn(NotRows(ms)) == [] && NotRows(NotRows(ms)) == NotRows(ms)
    ensures forall m | m in NotRows(ms) :: m in ms && !m.CheckIns?
  {
    if ms != [] {
      NoRowsLeft(ms[1..]);
      if ms[0].CheckIns? {
        assert NotRows(ms) == NotRows(ms[1..]);
      } else {
        PartsFirst(ms[0], NotRows(ms[1..]));
      }
    }
  }

  lemma NewsCons(m: Message, ms: seq<Message>)
    ensures AllNews([m] + ms) == MessageNews(m) + AllNews(ms)
  {
    assert ([m] + ms)[1..] == ms;
  }

  /** Merging changes nothing for a listener that goes by the highest number. */
  lemma MergeKeepsMeaning(m: Replica, ms: seq<Message>)
    requires Unambiguous(m, AllNews(ms))
    ensures LearnAll(m, AllNews(Merge(ms))) == LearnAll(m, AllNews(ms))
  {
    MergeKeepsNews(ms);
    ArrivalOrderIrrelevant(m, AllNews(ms), AllNews(Merge(ms)));
  }
}
