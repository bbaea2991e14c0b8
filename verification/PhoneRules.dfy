/** The phone's half of the relay (src/app/door/use-relay.ts): its cursor, and what it has heard. */
module PhoneRules {
  import opened Common
  import opened RelayTypes
  import opened Replica

  /** The cursor (`epoch`, `heard`) and a replica that goes by the highest number, of the room `epoch` names. */
  datatype View = View(epoch: string, heard: int, replica: Replica)

  /** A row or an undo; one that is not ours is dropped. */
  function HearNews(v: View, n: News): View {
    if IsUuid(n.ticketId) then v.(heard := Max(v.heard, n.fact.seqNo), replica := Learn(v.replica, n)) else v
  }

  function HearAllNews(v: View, ns: seq<News>): View
    decreases ns
  {
    if ns == [] then v else HearAllNews(HearNews(v, ns[0]), ns[1..])
  }

  /** A hello of another room starts the cursor over. */
  function HearHello(v: View, epoch: string): View {
    if epoch == v.epoch then v else View(epoch, 0, map[])
  }

  function Hear(v: View, m: Message): View {
    if m.Hello? then HearHello(v, m.epoch) else HearAllNews(v, MessageNews(m))
  }

  function HearAll(v: View, ms: seq<Message>): View
    decreases ms
  {
    if ms == [] then v else HearAll(Hear(v, ms[0]), ms[1..])
  }

  predicate NoHello(ms: seq<Message>) {
    forall m | m in ms :: !m.Hello?
  }

  lemma {:induction false} HearAllNewsAppend(v: View, a: seq<News>, b: seq<News>)
    ensures HearAllNews(v, a + b) == HearAllNews(HearAllNews(v, a), b)
    decreases a
  {
    if a == [] {
      assert a + b == b;
    } else {
      assert (a + b)[1..] == a[1..] + b;
      HearAllNewsAppend(HearNews(v, a[0]), a[1..], b);
    }
  }

  /** Without a hello, what is heard is the news in the messages. */
  lemma {:induction false} HearAllIsNews(v: View, ms: seq<Message>)
    requires NoHello(ms)
    ensures HearAll(v, ms) == HearAllNews(v, AllNews(ms))
    decreases ms
  {
    if ms != [] {
      assert ms[0] in ms;
      HearAllIsNews(Hear(v, ms[0]), ms[1..]);
      HearAllNewsAppend(v, MessageNews(ms[0]), AllNews(ms[1..]));
    }
  }

  predicate AllOurs(ns: seq<News>) {
    forall n | n in ns :: IsUuid(n.ticketId)
  }

  /** The cursor becomes the highest number heard; the replica learns everything. */
  lemma {:induction false} HeardNews(v: View, ns: seq<News>)
    requires AllOurs(ns)
    ensures var w := HearAllNews(v, ns);
            && w.epoch == v.epoch
            && w.replica == LearnAll(v.replica, ns)
            && v.heard <= w.heard
            && (forall n | n in ns :: n.fact.seqNo <= w.heard)
            && (w.heard == v.heard || exists n :: n in ns && n.fact.seqNo == w.heard)
    decreases ns
  {
    if ns != [] {
      assert ns[0] in ns;
      HeardNews(HearNews(v, ns[0]), ns[1..]);
      assert forall n :: n in ns <==> n == ns[0] || n in ns[1..];
    }
  }

  /** The news whose ticket id is one. */
  predicate Ours(n: News) {
    IsUuid(n.ticketId)
  }

  function OurNews(ns: seq<News>): seq<News> {
    if ns == [] then [] else (if Ours(ns[0]) then [ns[0]] else []) + OurNews(ns[1..])
  }

  lemma {:induction false} OnlyOursHeard(v: View, ns: seq<News>)
    ensures HearAllNews(v, ns) == HearAllNews(v, OurNews(ns))
    decreases ns
  {
    if ns != [] {
      OnlyOursHeard(HearNews(v, ns[0]), ns[1..]);
      if Ours(ns[0]) {
        assert ([ns[0]] + OurNews(ns[1..]))[1..] == OurNews(ns[1..]);
      } else {
        assert OurNews(ns) == OurNews(ns[1..]);
      }
    }
  }

  lemma {:induction false} OurNewsMembers(ns: seq<News>)
    ensures forall n :: n in OurNews(ns) <==> n in ns && Ours(n)
  {
    if ns != [] {
      OurNewsMembers(ns[1..]);
      assert forall n :: n in ns <==> n == ns[0] || n in ns[1..];
    }
  }

  /**
   * Of any news, good and bad: the cursor becomes the highest number of what is ours, if that is higher; a ticket's
   * fact is the newest of what was known and of what is ours; the rest leaves no trace.
   */
  lemma {:induction false} HeardIff(v: View, ns: seq<News>, t: string)
    ensures var w := HearAllNews(v, ns);
            && w.epoch == v.epoch
            && v.heard <= w.heard
            && (forall n | n in ns && Ours(n) :: n.fact.seqNo <= w.heard)
            && (w.heard == v.heard || exists n :: n in ns && Ours(n) && n.fact.seqNo == w.heard)
            && (t in w.replica <==> t in v.replica || exists n :: n in ns && Ours(n) && n.ticketId == t)
            && (t in v.replica ==> v.replica[t].seqNo <= w.replica[t].seqNo)
            && (forall n | n in ns && Ours(n) && n.ticketId == t :: n.fact.seqNo <= w.replica[t].seqNo)
            && (t in w.replica ==>
                  || (t in v.replica && w.replica[t] == v.replica[t])
                  || (News(t, w.replica[t]) in ns && Ours(News(t, w.replica[t]))))
  {
    OnlyOursHeard(v, ns);
    OurNewsMembers(ns);
    HeardNews(v, OurNews(ns));
    LearnAllHighest(v.replica, OurNews(ns), t);
  }

  /** A hello of the cursor's room changes nothing; one of another room forgets everything. */
  lemma {:induction false} HelloIff(v: View, epoch: string, top: int)
    ensures Hear(v, Hello(epoch, top)) == if epoch == v.epoch then v else View(epoch, 0, map[])
  {
  }
}
