/** The bound on pings is exact: with any number of requests that race to attach first, there is a run
    in which each line of discoveries pings as often as its validity period allows. */
module PingBound {
  import opened Wrappers
  import opened ObjectIDs
  import opened Middleware

  ghost predicate Reachable(s: MState) {
    exists r :: EndsIn(r, s)
  }

  ghost predicate EndsIn(r: seq<MState>, s: MState) {
    IsMRun(r) && r[|r| - 1] == s
  }

  lemma StartReachable()
    ensures Reachable(MStart())
  {
    assert EndsIn([MStart()], MStart());
  }

  lemma StepReachable(s: MState, e: MEvent, s': MState)
    requires Reachable(s) && MStep(s, e) == Some(s')
    ensures Reachable(s')
  {
    var r :| EndsIn(r, s);
    var r' := r + [s'];
    forall i | 0 <= i < |r'| - 1
      ensures MNextAt(r', i)
    {
      if i < |r| - 1 {
        assert MNextAt(r, i) && r'[i] == r[i] && r'[i + 1] == r[i + 1];
      } else {
        assert MStep(r'[i], e) == Some(r'[i + 1]);
      }
    }
    assert EndsIn(r', s');
  }

  /** `h` is a header that advertises `t`. */
  predicate Advertises(h: string, t: Subtree) {
    h != "" && ' ' in h && ParseHeader(h) == Ok(t)
  }

  lemma HeaderAdvertises(t: Subtree)
    requires ' ' !in t.prefix
    ensures Advertises(HeaderValue(t), t)
  {
    HeaderRoundTrip(t);
  }

  lemma OriginAdvertises(s: MState, v: Tid, h: string, t: Subtree)
    requires s.Visit(v).AtOrigin? && Advertises(h, t)
    ensures MStep(s, OriginReplies(v, h)) == Some(s.Goto(v, Advertised(t)).(advertised := s.advertised + {t}))
  {
  }

  lemma PingAdvertises(s: MState, d: nat, h: string, t: Subtree)
    requires d in s.pings && s.pings[d].Sent? && Advertises(h, t)
    ensures MStep(s, PingReplies(d, 200, h)) == Some(s.PingGoto(d, WillReload(t)).(advertised := s.advertised + {t}))
  {
  }

  // --- m requests see that nothing was ever attached ---

  ghost predicate Racing(s: MState, t: Subtree, k: nat) {
    && Reachable(s) && s.slot.Never? && s.now == 0 && s.discs == [] && s.roots == 0 && s.pings == map[] && s.sent == []
    && (forall i :: 0 <= i < k ==> s.Visit(i) == WillAttach(t))
    && (forall i :: i >= k ==> s.Visit(i) == Idle)
  }

  lemma OneMoreRacer(s: MState, h: string, t: Subtree, k: nat) returns (s': MState)
    requires Advertises(h, t) && Racing(s, t, k)
    ensures Racing(s', t, k + 1)
  {
    assert s.Visit(k) == Idle;
    var s1 := s.Goto(k, AtOrigin(t.prefix));
    StepReachable(s, Arrive(k, t.prefix), s1);
    OriginAdvertises(s1, k, h, t);
    var s2 := s1.Goto(k, Advertised(t)).(advertised := s1.advertised + {t});
    StepReachable(s1, OriginReplies(k, h), s2);
    s' := s2.Goto(k, WillAttach(t));
    StepReachable(s2, LoadAgain(k), s');
    assert forall u :: u != k ==> s'.Visit(u) == s.Visit(u);
  }

  lemma {:induction false} Racers(h: string, t: Subtree, m: nat) returns (s: MState)
    requires Advertises(h, t)
    ensures Racing(s, t, m)
  {
    if m == 0 {
      StartReachable();
      s := MStart();
    } else {
      s := Racers(h, t, m - 1);
      s := OneMoreRacer(s, h, t, m - 1);
    }
  }

  // --- each attaches, and another request arrives before the next does ---

  /** The visitor `v` will check a discovery `d` of `t` that was made at `made` and has not pinged. */
  predicate Waits(s: MState, t: Subtree, v: Tid, d: nat, made: Time) {
    s.Visit(v) == Checking(d, t.prefix) && d < |s.discs| && s.discs[d].created == made && s.discs[d].subtree == t && d !in s.pings
  }

  /** The `i`-th of `m` visitors waits for the `i`-th discovery from `d`. */
  predicate WaitsAt(s: MState, t: Subtree, m: nat, d: nat, i: nat, made: Time) {
    Waits(s, t, m + i, d + i, made)
  }

  ghost predicate AllWait(s: MState, t: Subtree, m: nat, d: nat, made: Time, from: nat, to: nat) {
    forall i :: from <= i < to ==> WaitsAt(s, t, m, d, i, made)
  }

  ghost predicate Spreading(s: MState, t: Subtree, m: nat, k: nat) {
    && Reachable(s) && s.now == 0 && |s.discs| == s.roots == k && s.pings == map[] && s.sent == []
    && AllWait(s, t, m, 0, 0, 0, k)
    && (forall i :: k <= i < m ==> s.Visit(i) == WillAttach(t))
    && (forall i :: i >= m + k ==> s.Visit(i) == Idle)
  }

  lemma OneMoreAttaches(s: MState, t: Subtree, m: nat, k: nat) returns (s': MState)
    requires Spreading(s, t, m, k) && k < m
    ensures Spreading(s', t, m, k + 1)
  {
    assert s.Visit(k) == WillAttach(t) && s.Visit(m + k) == Idle;
    var s1 := MStep(s, Attach(k)).value;
    StepReachable(s, Attach(k), s1);
    var s2 := MStep(s1, Store(k)).value;
    StepReachable(s1, Store(k), s2);
    s' := MStep(s2, Arrive(m + k, t.prefix)).value;
    StepReachable(s2, Arrive(m + k, t.prefix), s');
    assert forall u :: u != k && u != m + k ==> s'.Visit(u) == s.Visit(u);
    forall i | 0 <= i < k + 1
      ensures WaitsAt(s', t, m, 0, i, 0)
    {
      if i < k { assert WaitsAt(s, t, m, 0, i, 0); }
    }
  }

  lemma {:induction false} AllAttach(h: string, t: Subtree, m: nat, k: nat) returns (s: MState)
    requires Advertises(h, t) && k <= m
    ensures Spreading(s, t, m, k)
  {
    if k == 0 {
      s := Racers(h, t, m);
    } else {
      s := AllAttach(h, t, m, k - 1);
      s := OneMoreAttaches(s, t, m, k - 1);
    }
  }

  // --- every five seconds, each line pings and gets a successor, which a visitor waits for again ---

  /** In the round at time `s.now`, the first `k` of the `m` lines have been through; `d` is the first
      discovery of those that are five seconds old, and `n` pings were sent before. */
  ghost predicate Round(s: MState, t: Subtree, m: nat, d: nat, n: nat, k: nat) {
    && Reachable(s) && k <= m && s.roots == m && |s.discs| == d + m + k && s.now >= VALIDITY
    && AllWait(s, t, m, d + m, s.now, 0, k)
    && AllWait(s, t, m, d, s.now - VALIDITY, k, m)
    && (forall e :: e >= |s.discs| ==> e !in s.pings)
    && |s.sent| == n + k && SentWithin(s.sent, s.now)
  }

  predicate SentWithin(sent: seq<Sending>, now: Time) {
    forall i :: 0 <= i < |sent| ==> VALIDITY <= sent[i].at <= now
  }

  /** What the steps of one line in a round leave alone. */
  ghost predicate SameElsewhere(s: MState, s': MState, v: Tid, d: nat) {
    && s'.now == s.now && s'.roots == s.roots && s.discs <= s'.discs
    && (forall u :: u != v ==> s'.Visit(u) == s.Visit(u))
    && (forall e :: e != d ==> (e in s'.pings <==> e in s.pings))
  }

  lemma SpawnsPing(s: MState, t: Subtree, v: Tid, d: nat) returns (s': MState)
    requires Reachable(s) && s.now >= VALIDITY && Waits(s, t, v, d, s.now - VALIDITY)
    ensures Reachable(s') && SameElsewhere(s, s', v, d) && s'.discs == s.discs && s'.Visit(v) == Idle
    ensures s'.sent == s.sent && d in s'.pings && s'.pings[d] == Spawned
  {
    s' := MStep(s, CheckValidity(v, false)).value;
    StepReachable(s, CheckValidity(v, false), s');
  }

  lemma LinePings(s: MState, h: string, t: Subtree, v: Tid, d: nat) returns (s': MState)
    requires Reachable(s) && Advertises(h, t) && s.now >= VALIDITY && Waits(s, t, v, d, s.now - VALIDITY)
    ensures Reachable(s') && SameElsewhere(s, s', v, d) && s'.discs == s.discs && s'.Visit(v) == Idle
    ensures s'.sent == s.sent + [Sending(s.now, d, s.discs[d].root)]
    ensures d in s'.pings && s'.pings[d] == WillReload(t)
  {
    var s1 := SpawnsPing(s, t, v, d);
    var s2 := MStep(s1, SendPing(d)).value;
    StepReachable(s1, SendPing(d), s2);
    PingAdvertises(s2, d, h, t);
    s' := s2.PingGoto(d, WillReload(t)).(advertised := s2.advertised + {t});
    StepReachable(s2, PingReplies(d, 200, h), s');
  }

  lemma LineRenews(s: MState, t: Subtree, v: Tid, d: nat) returns (s': MState)
    requires Reachable(s) && s.Visit(v) == Idle && d < |s.discs| && d in s.pings && s.pings[d] == WillReload(t)
    requires |s.discs| !in s.pings
    ensures Reachable(s') && SameElsewhere(s, s', v, d) && |s'.discs| == |s.discs| + 1 && s'.sent == s.sent
    ensures Waits(s', t, v, |s.discs|, s.now)
  {
    var s1 := MStep(s, Reload(d)).value;
    StepReachable(s, Reload(d), s1);
    var s2 := MStep(s1, FinishPing(d)).value;
    StepReachable(s1, FinishPing(d), s2);
    s' := MStep(s2, Arrive(v, t.prefix)).value;
    StepReachable(s2, Arrive(v, t.prefix), s');
  }

  lemma OthersWait(s: MState, s': MState, t: Subtree, m: nat, v: Tid, x: nat, d: nat, made: Time, from: nat, to: nat)
    requires SameElsewhere(s, s', v, x) && AllWait(s, t, m, d, made, from, to)
    requires !(from <= v - m < to) && !(from <= x - d < to)
    ensures AllWait(s', t, m, d, made, from, to)
  {
    forall i | from <= i < to
      ensures WaitsAt(s', t, m, d, i, made)
    {
      assert WaitsAt(s, t, m, d, i, made);
    }
  }

  /** One line goes through a round. */
  lemma LineGoesThrough(s: MState, h: string, t: Subtree, v: Tid, d: nat) returns (s': MState)
    requires Reachable(s) && Advertises(h, t) && s.now >= VALIDITY && Waits(s, t, v, d, s.now - VALIDITY)
    requires |s.discs| !in s.pings
    ensures Reachable(s') && SameElsewhere(s, s', v, d) && |s'.discs| == |s.discs| + 1
    ensures s'.sent == s.sent + [Sending(s.now, d, s.discs[d].root)]
    ensures Waits(s', t, v, |s.discs|, s.now)
  {
    var s1 := LinePings(s, h, t, v, d);
    assert |s.discs| in s1.pings <==> |s.discs| in s.pings;
    s' := LineRenews(s1, t, v, d);
    SameElsewhereTwice(s, s1, s', v, d);
  }

  lemma SameElsewhereTwice(s: MState, s1: MState, s2: MState, v: Tid, d: nat)
    requires SameElsewhere(s, s1, v, d) && SameElsewhere(s1, s2, v, d)
    ensures SameElsewhere(s, s2, v, d)
  {
    forall u | u != v
      ensures s2.Visit(u) == s.Visit(u)
    {
      assert s1.Visit(u) == s.Visit(u);
    }
    forall e | e != d
      ensures e in s2.pings <==> e in s.pings
    {
      assert e in s1.pings <==> e in s.pings;
    }
  }

  lemma OneMoreLine(s: MState, h: string, t: Subtree, m: nat, d: nat, n: nat, k: nat) returns (s': MState)
    requires Advertises(h, t) && Round(s, t, m, d, n, k) && k < m
    ensures Round(s', t, m, d, n, k + 1) && s'.now == s.now
  {
    var v, x, d', made := m + k, d + k, d + m, s.now - VALIDITY;
    assert WaitsAt(s, t, m, d, k, made);
    s' := LineGoesThrough(s, h, t, v, x);
    OthersWait(s, s', t, m, v, x, d', s.now, 0, k);
    OthersWait(s, s', t, m, v, x, d, made, k + 1, m);
    LastWaits(s', t, m, d', s.now, k);
    NoPingsAhead(s, s', v, x);
    SentInTime(s, s', x);
  }

  lemma SentInTime(s: MState, s': MState, d: nat)
    requires SentWithin(s.sent, s.now) && s.now >= VALIDITY && d < |s.discs| && s'.now == s.now
    requires s'.sent == s.sent + [Sending(s.now, d, s.discs[d].root)]
    ensures SentWithin(s'.sent, s'.now) && |s'.sent| == |s.sent| + 1
  {
  }

  lemma LastWaits(s: MState, t: Subtree, m: nat, d: nat, made: Time, k: nat)
    requires AllWait(s, t, m, d, made, 0, k) && Waits(s, t, m + k, d + k, made)
    ensures AllWait(s, t, m, d, made, 0, k + 1)
  {
    assert WaitsAt(s, t, m, d, k, made);
  }

  lemma NoPingsAhead(s: MState, s': MState, v: Tid, d: nat)
    requires SameElsewhere(s, s', v, d) && d < |s.discs|
    requires forall e :: e >= |s.discs| ==> e !in s.pings
    ensures forall e :: e >= |s'.discs| ==> e !in s'.pings
  {
  }

  lemma {:induction false} AllLines(s: MState, h: string, t: Subtree, m: nat, d: nat, n: nat, k: nat) returns (s': MState)
    requires Advertises(h, t) && Round(s, t, m, d, n, 0) && k <= m
    ensures Round(s', t, m, d, n, k) && s'.now == s.now
  {
    if k == 0 {
      s' := s;
    } else {
      s' := AllLines(s, h, t, m, d, n, k - 1);
      s' := OneMoreLine(s', h, t, m, d, n, k - 1);
    }
  }

  lemma NextRound(s: MState, t: Subtree, m: nat, d: nat, n: nat) returns (s': MState)
    requires Round(s, t, m, d, n, m)
    ensures Round(s', t, m, d + m, n + m, 0) && s'.now == s.now + VALIDITY
  {
    s' := MStep(s, Tick(VALIDITY)).value;
    StepReachable(s, Tick(VALIDITY), s');
    var d', now := d + m, s.now;
    forall i | 0 <= i < m
      ensures WaitsAt(s', t, m, d', i, now)
    {
      assert WaitsAt(s, t, m, d', i, now);
    }
  }

  lemma FirstRound(h: string, t: Subtree, m: nat) returns (s: MState)
    requires Advertises(h, t)
    ensures Round(s, t, m, 0, 0, 0) && s.now == VALIDITY
  {
    var s0 := AllAttach(h, t, m, m);
    s := MStep(s0, Tick(VALIDITY)).value;
    StepReachable(s0, Tick(VALIDITY), s);
    forall i | 0 <= i < m
      ensures WaitsAt(s, t, m, 0, i, 0)
    {
      assert WaitsAt(s0, t, m, 0, i, 0);
    }
  }

  lemma OneMore(m: nat, n: nat)
    requires n > 0
    ensures m * (n - 1) + m == m * n
  {
  }

  /** Before round `n`, every line has sent `n` pings. */
  lemma {:induction false} Rounds(h: string, t: Subtree, m: nat, n: nat) returns (s: MState, sent: nat)
    requires Advertises(h, t)
    ensures sent == m * n && Round(s, t, m, sent, sent, 0) && s.now == VALIDITY * (n + 1)
  {
    if n == 0 {
      s := FirstRound(h, t, m);
      sent := 0;
    } else {
      s, sent := Rounds(h, t, m, n - 1);
      s := AllLines(s, h, t, m, sent, sent, m);
      s := NextRound(s, t, m, sent, sent);
      OneMore(m, n);
      sent := sent + m;
    }
  }

  lemma {:induction false} AllInWindow(sent: seq<Sending>, a: Time, span: Time)
    requires forall i :: 0 <= i < |sent| ==> a <= sent[i].at <= a + span
    ensures PingsIn(sent, a, span) == |sent|
  {
    if sent != [] {
      AllInWindow(sent[..|sent| - 1], a, span);
    }
  }

  lemma WholePeriods(span: Time)
    ensures VALIDITY * (span / VALIDITY + 1) <= VALIDITY + span
  {
  }

  /** The bound of `PingRate` is reached, for every number of attachments and every length of window. */
  lemma BoundIsReached(h: string, t: Subtree, m: nat, span: Time) returns (s: MState)
    requires Advertises(h, t)
    ensures Reachable(s) && s.roots == m && PingsIn(s.sent, VALIDITY, span) == m * (span / VALIDITY + 1)
  {
    var n, sent := span / VALIDITY, 0;
    s, sent := Rounds(h, t, m, n);
    s := AllLines(s, h, t, m, sent, sent, m);
    OneMore(m, n + 1);
    WholePeriods(span);
    AllInWindow(s.sent, VALIDITY, span);
  }

  /** Never more than `bound` pings in a window of `span`, as long as there are at most `m` initial attachments. */
  ghost predicate NeverMore(m: nat, span: Time, bound: nat) {
    forall s, a :: Reachable(s) && s.roots <= m ==> PingsIn(s.sent, a, span) <= bound
  }

  /** So it is the least bound there is. */
  lemma PingRateExact(m: nat, span: Time, bound: nat)
    ensures NeverMore(m, span, bound) <==> m * (span / VALIDITY + 1) <= bound
  {
    var per := span / VALIDITY + 1;
    if m * per <= bound {
      forall s, a | Reachable(s) && s.roots <= m
        ensures PingsIn(s.sent, a, span) <= bound
      {
        var r :| EndsIn(r, s);
        PingRate(r, |r| - 1, a, span);
        MulMonotone(s.roots, m, per);
      }
    }
    if NeverMore(m, span, bound) {
      var t := Subtree("/static", seq(32, i => 0));
      HeaderAdvertises(t);
      var s := BoundIsReached(HeaderValue(t), t, m, span);
    }
  }

  lemma MulMonotone(a: nat, b: nat, c: nat)
    requires a <= b
    ensures a * c <= b * c
  {
  }

  /** "One request per five seconds" is kept by all runs exactly while at most one request attaches. */
  lemma OnePerPeriodIff(m: nat)
    ensures (forall span: Time :: NeverMore(m, span, span / VALIDITY + 1)) <==> m <= 1
  {
    if m <= 1 {
      forall span: Time
        ensures NeverMore(m, span, span / VALIDITY + 1)
      {
        PingRateExact(m, span, span / VALIDITY + 1);
        MulMonotone(m, 1, span / VALIDITY + 1);
      }
    } else {
      PingRateExact(m, 0, 1);
      assert !NeverMore(m, 0, 0 / VALIDITY + 1);
    }
  }
}
