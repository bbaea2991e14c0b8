/** The phone's link to its room (src/app/door/use-relay.ts): the cursor, and when it tries again. */
module PhoneLink {
  import opened Common
  import opened RelayTypes
  import opened Replica
  import opened PhoneRules
  import opened Resend

  const RETRY_MIN_MS: int := 1_000
  const RETRY_MAX_MS: int := 30_000
  const CROWDED_WAIT_MS: int := 60_000
  const CROWDED_CLOSE: int := 4008

  // ----- trying again -----

  function NextRetry(retryMs: int): int {
    Min(Max(RETRY_MAX_MS, retryMs), retryMs * 2)
  }

  /** The wait after `k` failures in a row since the link was last open. */
  function Backoff(k: nat): int {
    if k == 0 then RETRY_MIN_MS else NextRetry(Backoff(k - 1))
  }

  function Doubled(k: nat): int {
    if k == 0 then 1 else 2 * Doubled(k - 1)
  }

  /** It doubles from a second and stops at half a minute. */
  lemma {:induction false} BackoffDoubles(k: nat)
    ensures Backoff(k) == Min(30_000, 1_000 * Doubled(k))
  {
    if k > 0 {
      BackoffDoubles(k - 1);
    }
  }

  /** Whatever it is, it never shrinks and never passes a minute; a crowded phone's minute stays a minute. */
  lemma RetryNeverShrinks(retryMs: int)
    requires 1_000 <= retryMs <= 60_000
    ensures retryMs <= NextRetry(retryMs) <= 60_000
    ensures NextRetry(retryMs) == retryMs <==> 30_000 <= retryMs
  {
  }

  /** A wait, spread by a random part from 0 up to 1: phones cut off together try again one by one. */
  function Wait(retryMs: int, jitter: real): real {
    retryMs as real * (0.75 + jitter * 0.5)
  }

  lemma WaitBounds(retryMs: int, jitter: real)
    requires 0.0 <= jitter < 1.0 && 0 < retryMs
    ensures 3.0 * retryMs as real <= 4.0 * Wait(retryMs, jitter) < 5.0 * retryMs as real
  {
    var ms, f := retryMs as real, 3.0 + 2.0 * jitter;
    assert 4.0 * Wait(retryMs, jitter) == ms * f;
    assert ms * 3.0 <= ms * f < ms * 5.0;
  }

  /** The whole of it is used: from three quarters of the wait to five, the more the later. */
  lemma WaitSpreads(retryMs: int, a: real, b: real)
    requires 0 < retryMs && a < b
    ensures Wait(retryMs, a) < Wait(retryMs, b)
    ensures 4.0 * Wait(retryMs, 0.0) == 3.0 * retryMs as real && 4.0 * Wait(retryMs, 1.0) == 5.0 * retryMs as real
  {
    var ms := retryMs as real;
    assert Wait(retryMs, b) - Wait(retryMs, a) == ms * ((b - a) * 0.5);
    assert ms * ((b - a) * 0.5) > 0.0;
  }

  // ----- the link -----

  datatype LinkState = Off | Connecting | Live

  /** What arrives over the socket: one of the room's messages, or something the phone ignores. */
  datatype Incoming = Ignored | FromRoom(m: Message)

  /** A new socket's address: the cursor as the room will read it. */
  datatype Opening = Opening(epoch: string, after: int)

  function OurRows(rows: seq<WireRow>): seq<WireRow> {
    if rows == [] then [] else (if IsUuid(rows[0].ticketId) then [rows[0]] else []) + OurRows(rows[1..])
  }

  /** The page is told exactly the rows whose ticket id is one, each as often. */
  lemma {:induction false} OurRowsIff(rows: seq<WireRow>, r: WireRow)
    ensures multiset(OurRows(rows))[r] == if IsUuid(r.ticketId) then multiset(rows)[r] else 0
  {
    if rows != [] {
      OurRowsIff(rows[1..], r);
      assert rows == [rows[0]] + rows[1..];
    }
  }

  ghost predicate RowsAscend(rows: seq<WireRow>) {
    forall i, j | 0 <= i < j < |rows| :: rows[i].seqNo < rows[j].seqNo
  }

  /** Rows that come in number order are told in number order. */
  lemma {:induction false} OurRowsInOrder(rows: seq<WireRow>)
    requires RowsAscend(rows)
    ensures RowsAscend(OurRows(rows))
  {
    if rows != [] {
      OurRowsInOrder(rows[1..]);
      var rest := OurRows(rows[1..]);
      forall i | 0 <= i < |rest|
        ensures rows[0].seqNo < rest[i].seqNo
      {
        OurRowsIff(rows[1..], rest[i]);
        assert rest[i] in multiset(rest);
        assert rest[i] in rows[1..];
      }
    }
  }

  lemma {:induction false} HeadHeard(v: View, rows: seq<WireRow>, i: nat)
    requires i < |rows|
    ensures HearAllNews(v, WiresNews(rows[i..])) ==
            HearAllNews(HearNews(v, WireNews(rows[i])), WiresNews(rows[i + 1..]))
    ensures OurRows(rows[i..]) == (if IsUuid(rows[i].ticketId) then [rows[i]] else []) + OurRows(rows[i + 1..])
  {
    assert rows[i..][1..] == rows[i + 1..];
    assert WiresNews(rows[i..])[1..] == WiresNews(rows[i + 1..]);
  }

  lemma {:induction false} OneHeard(v: View, n: News)
    ensures HearAllNews(v, [n]) == HearNews(v, n)
  {
    assert [n][1..] == [];
  }

  /** The batches of the marks from the i-th on. */
  function From(claims: seq<Item>, i: nat): seq<seq<Item>> {
    if i < |claims| then Batches(claims[i..]) else []
  }

  lemma {:induction false} BatchStep(claims: seq<Item>, i: nat)
    requires i < |claims|
    ensures From(claims, i) == [claims[i..Min(i + CLAIMS_PER_BATCH, |claims|)]] + From(claims, i + CLAIMS_PER_BATCH)
  {
    var rest := claims[i..];
    if |rest| <= CLAIMS_PER_BATCH {
      assert rest == claims[i..Min(i + CLAIMS_PER_BATCH, |claims|)];
      assert From(claims, i + CLAIMS_PER_BATCH) == [];
      assert [rest] == [rest] + [];
    } else {
      assert rest[..CLAIMS_PER_BATCH] == claims[i..i + CLAIMS_PER_BATCH];
      assert rest[CLAIMS_PER_BATCH..] == claims[i + CLAIMS_PER_BATCH..];
    }
  }

  class PhoneLink {
    var heard: int
    var epoch: string
    var state: LinkState
    var socket: Option<int>
    var timer: bool
    var retryMs: int
    var stopped: bool
    ghost var replica: Replica

    ghost function Seen(): View
      reads this
    {
      View(epoch, heard, replica)
    }

    /** A link that is not off and not stopped has a socket or a timer, never both: it does not give up or race. */
    ghost predicate Valid()
      reads this
    {
      && RETRY_MIN_MS <= retryMs <= CROWDED_WAIT_MS
      && (stopped ==> state == Off)
      && (state == Off ==> socket.None? && !timer)
      && (state != Off ==> socket.Some? != timer)
      && (state == Live ==> socket.Some?)
    }

    /** The link as it starts, with its first socket (None: it could not be made). */
    constructor (sock: Option<int>)
      ensures Valid() && !stopped && Seen() == View("", 0, map[]) && socket == sock
      ensures retryMs == if sock.Some? then RETRY_MIN_MS else Backoff(1)
    {
      heard, epoch, replica := 0, "", map[];
      state, socket, timer, stopped := Connecting, sock, sock.None?, false;
      retryMs := if sock.Some? then RETRY_MIN_MS else NextRetry(RETRY_MIN_MS);
    }

    /** Sets the timer; `jitter` is the random part of the wait, from 0 up to 1. */
    method Retry(jitter: real) returns (wait: real)
      requires 0.0 <= jitter < 1.0
      requires !stopped && socket.None? && RETRY_MIN_MS <= retryMs <= CROWDED_WAIT_MS
      modifies this`state, this`timer, this`retryMs
      ensures Valid() && state == Connecting && timer
      ensures retryMs == NextRetry(old(retryMs))
      ensures wait == Wait(old(retryMs), jitter)
      ensures 3.0 * old(retryMs) as real <= 4.0 * wait < 5.0 * old(retryMs) as real
    {
      state := Connecting;
      wait := Wait(retryMs, jitter);
      WaitBounds(retryMs, jitter);
      retryMs := Min(Max(RETRY_MAX_MS, retryMs), retryMs * 2);
      timer := true;
    }

    /** The timer runs out, or the signal returns: a socket is opened at the cursor. */
    method Connect(sock: Option<int>, jitter: real) returns (opening: Opening)
      requires 0.0 <= jitter < 1.0
      requires !stopped && socket.None? && RETRY_MIN_MS <= retryMs <= CROWDED_WAIT_MS
      modifies this`state, this`socket, this`timer, this`retryMs
      ensures Valid() && state == Connecting && socket == sock
      ensures opening == Opening(epoch, heard)
      ensures retryMs == if sock.Some? then old(retryMs) else NextRetry(old(retryMs))
    {
      state, timer := Connecting, false;
      opening := Opening(epoch, heard);
      if sock.None? {
        var wait := Retry(jitter);
        return;
      }
      socket := sock;
    }

    /** The socket opens: the phone's own marks are sent again, in batches. */
    method OnOpen(claims: seq<Item>) returns (sent: seq<seq<Item>>)
      requires Valid() && socket.Some?
      modifies this`state, this`retryMs
      ensures Valid() && state == Live && retryMs == 1_000
      ensures sent == Batches(claims)
    {
      retryMs, state := RETRY_MIN_MS, Live;
      sent := [];
      var i := 0;
      while i < |claims|
        invariant 0 <= i
        invariant Batches(claims) == sent + From(claims, i)
        modifies {}
      {
        var last := Min(i + CLAIMS_PER_BATCH, |claims|);
        BatchStep(claims, i);
        sent := sent + [claims[i..last]];
        i := i + CLAIMS_PER_BATCH;
      }
    }

    /** A message arrives: the cursor and what is known move as the rules say, and the page is told. */
    method OnMessage(incoming: Incoming) returns (rows: seq<WireRow>, undo: Option<Message>)
      requires Valid()
      modifies this`heard, this`epoch, this`replica
      ensures Valid()
      ensures Seen() == if incoming.Ignored? then old(Seen()) else Hear(old(Seen()), incoming.m)
      ensures rows == if incoming.FromRoom? && incoming.m.CheckIns? then OurRows(incoming.m.rows) else []
      ensures undo == if incoming.FromRoom? && incoming.m.Undo? && IsUuid(incoming.m.ticketId)
                      then Some(incoming.m) else None
    {
      rows, undo := [], None;
      if incoming.Ignored? { return; }
      var m := incoming.m;
      match m {
        case Hello(name, _) =>
          if name != epoch { heard, replica := 0, map[]; }
          epoch := name;
        case CheckIns(all) =>
          rows := HearRows(all);
        case Undo(id, remover, at, seqNo) =>
          ghost var news := News(id, Out(remover, at, seqNo));
          assert MessageNews(m) == [news];
          OneHeard(Seen(), news);
          if IsUuid(id) {
            replica := Learn(replica, news);
            if seqNo > heard { heard := seqNo; }
            undo := Some(m);
          }
      }
    }

    method HearRows(all: seq<WireRow>) returns (rows: seq<WireRow>)
      modifies this`heard, this`replica
      ensures Seen() == HearAllNews(old(Seen()), WiresNews(all)) && rows == OurRows(all)
    {
      rows := [];
      var i := 0;
      while i < |all|
        invariant 0 <= i <= |all| && epoch == old(epoch)
        invariant HearAllNews(old(Seen()), WiresNews(all)) == HearAllNews(Seen(), WiresNews(all[i..]))
        invariant OurRows(all) == rows + OurRows(all[i..])
      {
        HeadHeard(Seen(), all, i);
        if IsUuid(all[i].ticketId) {
          rows := rows + [all[i]];
          replica := Learn(replica, WireNews(all[i]));
          if all[i].seqNo > heard { heard := all[i].seqNo; }
        }
        i := i + 1;
      }
      assert all[i..] == [];
    }

    /** The socket closes. Only an expired or revoked pass ends the link; a crowded one waits a minute. */
    method OnClose(code: int, jitter: real) returns (wait: real)
      requires 0.0 <= jitter < 1.0
      requires Valid() && socket.Some?
      modifies this`state, this`socket, this`timer, this`retryMs
      ensures Valid() && socket.None? && state == (if code == 4001 || code == 4003 then Off else Connecting)
      ensures state == Connecting ==>
                var was := if code == 4008 then 60_000 else old(retryMs);
                && retryMs == NextRetry(was) && wait == Wait(was, jitter)
                && 3.0 * was as real <= 4.0 * wait < 5.0 * was as real
    {
      wait := 0.0;
      socket := None;
      if code == 4001 || code == 4003 {
        state := Off;
        return;
      }
      if code == CROWDED_CLOSE { retryMs := CROWDED_WAIT_MS; }
      wait := Retry(jitter);
    }

    /** The phone's signal returns: with no socket it tries at once, even after a final close. */
    method OnOnline(sock: Option<int>, jitter: real) returns (opening: Option<Opening>)
      requires 0.0 <= jitter < 1.0
      requires Valid() && !stopped
      modifies this`state, this`socket, this`timer, this`retryMs
      ensures Valid() && Seen() == old(Seen())
      ensures old(socket).Some? ==> opening == None && socket == old(socket) && state == old(state)
      ensures old(socket).None? ==> opening == Some(Opening(epoch, heard)) && socket == sock && state == Connecting
      ensures retryMs == if old(socket).Some? then old(retryMs) else if sock.Some? then RETRY_MIN_MS else Backoff(1)
    {
      opening := None;
      if socket.Some? { return; }
      retryMs := RETRY_MIN_MS;
      timer := false;
      var o := Connect(sock, jitter);
      opening := Some(o);
    }

    method Stop()
      requires Valid()
      modifies this`stopped, this`socket, this`timer, this`state
      ensures Valid() && stopped
    {
      stopped, socket, timer, state := true, None, false, Off;
    }
  }
}
