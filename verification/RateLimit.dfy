/** The rate limit, over every sequence of messages. */
module RateLimit {
  import opened Common
  import opened EventRules

  /** A text message of a pass arriving at a time. */
  datatype Arrival = Arrival(passId: string, at: int)

  function RateAfter(rate: map<string, Window>, arrivals: seq<Arrival>): map<string, Window>
    decreases arrivals
  {
    if arrivals == [] then rate else RateAfter(Knock(rate, arrivals[0].passId, arrivals[0].at), arrivals[1..])
  }

  /** How many of a pass's arrivals are let through. */
  function Accepted(rate: map<string, Window>, arrivals: seq<Arrival>, passId: string): int
    decreases arrivals
  {
    if arrivals == [] then 0
    else
      (if arrivals[0].passId == passId && Admits(rate, passId, arrivals[0].at) then 1 else 0) +
      Accepted(Knock(rate, arrivals[0].passId, arrivals[0].at), arrivals[1..], passId)
  }

  /** Every window counts the message that opened it. */
  predicate Counting(rate: map<string, Window>) {
    forall p | p in rate :: 1 <= rate[p].n
  }

  lemma {:induction false} StaysCounting(rate: map<string, Window>, arrivals: seq<Arrival>)
    requires Counting(rate)
    ensures Counting(RateAfter(rate, arrivals))
    decreases arrivals
  {
    if arrivals != [] {
      StaysCounting(Knock(rate, arrivals[0].passId, arrivals[0].at), arrivals[1..]);
    }
  }

  lemma {:induction false} WithinOneWindow(rate: map<string, Window>, arrivals: seq<Arrival>, passId: string)
    requires passId in rate
    requires forall a | a in arrivals :: a.at <= rate[passId].start + RATE_WINDOW_MS
    ensures Accepted(rate, arrivals, passId) <= Max(0, RATE_PER_WINDOW - rate[passId].n)
    decreases arrivals
  {
    if arrivals != [] {
      assert arrivals[0] in arrivals;
      WithinOneWindow(Knock(rate, arrivals[0].passId, arrivals[0].at), arrivals[1..], passId);
    }
  }

  lemma {:induction false} AcrossTwoWindows(rate: map<string, Window>, arrivals: seq<Arrival>, passId: string, t0: int)
    requires forall a | a in arrivals :: t0 <= a.at <= t0 + RATE_WINDOW_MS
    ensures Accepted(rate, arrivals, passId) <=
            (if passId in rate then Max(0, RATE_PER_WINDOW - rate[passId].n) else 0) + RATE_PER_WINDOW
    decreases arrivals
  {
    if arrivals != [] {
      assert arrivals[0] in arrivals;
      var next := Knock(rate, arrivals[0].passId, arrivals[0].at);
      if arrivals[0].passId == passId && NextWindow(rate, passId, arrivals[0].at) == Window(arrivals[0].at, 1) {
        WithinOneWindow(next, arrivals[1..], passId);
      } else {
        AcrossTwoWindows(next, arrivals[1..], passId, t0);
      }
    }
  }

  /**
   * Whatever came before while the object was in memory, from any pass and any socket: of the messages that arrive
   * within one window's length, a pass gets fewer than two windows' worth through.
   */
  lemma {:induction false} RateBound(before: seq<Arrival>, during: seq<Arrival>, passId: string, t0: int)
    requires forall a | a in during :: t0 <= a.at <= t0 + 10_000
    ensures Accepted(RateAfter(map[], before), during, passId) <= 99
  {
    StaysCounting(map[], before);
    AcrossTwoWindows(RateAfter(map[], before), during, passId, t0);
  }

  // ----- nobody is refused early -----

  predicate InTime(arrivals: seq<Arrival>, t0: int)
    decreases arrivals
  {
    arrivals == [] || (t0 <= arrivals[0].at && InTime(arrivals[1..], arrivals[0].at))
  }

  /** How many messages of a pass arrived at a time or after it. */
  function Recent(arrivals: seq<Arrival>, passId: string, since: int): int {
    if arrivals == [] then 0
    else (if arrivals[0].passId == passId && since <= arrivals[0].at then 1 else 0) +
         Recent(arrivals[1..], passId, since)
  }

  lemma {:induction false} RecentGrows(arrivals: seq<Arrival>, passId: string, since: int, earlier: int)
    requires earlier <= since
    ensures 0 <= Recent(arrivals, passId, since) <= Recent(arrivals, passId, earlier)
  {
    if arrivals != [] {
      RecentGrows(arrivals[1..], passId, since, earlier);
    }
  }

  /** A window counts no more than the messages since it opened. */
  lemma {:induction false} WindowCounts(rate: map<string, Window>, arrivals: seq<Arrival>, passId: string, t0: int)
    requires InTime(arrivals, t0) && (passId in rate ==> rate[passId].start <= t0)
    requires passId in RateAfter(rate, arrivals)
    ensures var w := RateAfter(rate, arrivals)[passId];
            w.n <= Recent(arrivals, passId, w.start) +
                   if passId in rate && w.start == rate[passId].start then Max(0, rate[passId].n) else 0
    decreases arrivals
  {
    if arrivals != [] {
      var next := Knock(rate, arrivals[0].passId, arrivals[0].at);
      WindowCounts(next, arrivals[1..], passId, arrivals[0].at);
      var w := RateAfter(next, arrivals[1..])[passId];
      RecentGrows(arrivals[1..], passId, w.start, w.start);
    }
  }

  /**
   * After any history, a message with fewer than fifty of its pass's in the window's length before it is let through.
   */
  lemma {:induction false} NeverRefusedEarly(before: seq<Arrival>, passId: string, at: int, t0: int)
    requires InTime(before, t0) && Recent(before, passId, at - 10_000) < 50
    ensures Admits(RateAfter(map[], before), passId, at)
  {
    var rate := RateAfter(map[], before);
    if passId in rate && at - rate[passId].start <= RATE_WINDOW_MS {
      WindowCounts(map[], before, passId, t0);
      RecentGrows(before, passId, rate[passId].start, at - 10_000);
    }
  }

  function OfPass(arrivals: seq<Arrival>, passId: string): seq<Arrival> {
    if arrivals == [] then []
    else (if arrivals[0].passId == passId then [arrivals[0]] else []) + OfPass(arrivals[1..], passId)
  }

  predicate SameWindow(a: map<string, Window>, b: map<string, Window>, passId: string) {
    (passId in a <==> passId in b) && (passId in a ==> a[passId] == b[passId])
  }

  /** A pass is counted alone. */
  lemma {:induction false} PassesApart(a: map<string, Window>, b: map<string, Window>, arrivals: seq<Arrival>,
                                       passId: string)
    requires SameWindow(a, b, passId)
    ensures SameWindow(RateAfter(a, arrivals), RateAfter(b, OfPass(arrivals, passId)), passId)
    decreases arrivals
  {
    if arrivals != [] {
      var next := Knock(a, arrivals[0].passId, arrivals[0].at);
      var rest := OfPass(arrivals[1..], passId);
      if arrivals[0].passId == passId {
        assert ([arrivals[0]] + rest)[1..] == rest;
        PassesApart(next, Knock(b, passId, arrivals[0].at), arrivals[1..], passId);
      } else {
        assert OfPass(arrivals, passId) == rest;
        PassesApart(next, b, arrivals[1..], passId);
      }
    }
  }

  function Burst(a: Arrival, n: nat): seq<Arrival> {
    if n == 0 then [] else [a] + Burst(a, n - 1)
  }

  lemma {:induction false} BurstAccepted(rate: map<string, Window>, a: Arrival, n: nat, rest: seq<Arrival>)
    requires a.passId in rate && a.at <= rate[a.passId].start + RATE_WINDOW_MS
    requires rate[a.passId].n + n <= RATE_PER_WINDOW
    ensures Accepted(rate, Burst(a, n) + rest, a.passId) ==
            n + Accepted(rate[a.passId := Window(rate[a.passId].start, rate[a.passId].n + n)], rest, a.passId)
    decreases n
  {
    if n == 0 {
      assert Burst(a, n) + rest == rest;
      assert rate[a.passId := rate[a.passId]] == rate;
    } else {
      var next := Knock(rate, a.passId, a.at);
      BurstAccepted(next, a, n - 1, rest);
      assert (Burst(a, n) + rest)[1..] == Burst(a, n - 1) + rest;
      assert next[a.passId := Window(next[a.passId].start, next[a.passId].n + (n - 1))] ==
             rate[a.passId := Window(rate[a.passId].start, rate[a.passId].n + n)];
    }
  }

  /** The bound is met: one message, then the rest of its window just before it closes and a new one just after. */
  lemma {:induction false} RateBoundIsTight(passId: string)
    ensures var before := [Arrival(passId, 0)];
            var during := Burst(Arrival(passId, RATE_WINDOW_MS), 49) + Burst(Arrival(passId, RATE_WINDOW_MS + 1), 50);
            Accepted(RateAfter(map[], before), during, passId) == 99
  {
    var late, later := Arrival(passId, RATE_WINDOW_MS), Arrival(passId, RATE_WINDOW_MS + 1);
    var first := map[passId := Window(0, 1)];
    assert [Arrival(passId, 0)][1..] == [];
    assert Knock(map[], passId, 0) == first;
    assert RateAfter(map[], [Arrival(passId, 0)]) == first;
    BurstAccepted(first, late, 49, Burst(later, 50));
    var whole := first[passId := Window(0, 50)];
    var reopened := whole[passId := Window(RATE_WINDOW_MS + 1, 1)];
    assert Knock(whole, passId, later.at) == reopened;
    assert Burst(later, 50)[1..] == Burst(later, 49) + [];
    BurstAccepted(reopened, later, 49, []);
  }
}
