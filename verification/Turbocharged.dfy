/** What the middleware does for requests: which are served from the discovered subtree and which go to
    the origin, and what it takes to switch turbocharging off. */
module Turbocharged {
  import opened Wrappers
  import opened ObjectIDs
  import opened Middleware

  // --- requests below the prefix are served from the manifest ---

  /** A discovery with that prefix is in use. */
  predicate AttachedTo(s: MState, prefix: string) {
    s.slot.Attached? && s.slot.disc < |s.discs| && s.discs[s.slot.disc].subtree.prefix == prefix
  }

  /** In this step, a request for `path` comes in. */
  ghost predicate ArrivesAt(r: seq<MState>, k: nat, t: Tid, path: string)
    requires k < |r| - 1
  {
    MStep(r[k], Arrive(t, path)) == Some(r[k + 1])
  }

  /** A visit for `path` was entered in `served` between the two states. */
  predicate WasServed(s: MState, s': MState, path: string, disc: nat) {
    exists x :: |s.served| <= x < |s'.served| && s'.served[x].path == path && s'.served[x].disc == disc
  }

  lemma ServedGrows(s: MState, e: MEvent, s': MState)
    requires MStep(s, e) == Some(s')
    ensures s.served <= s'.served
  {
  }

  lemma CheckedOrServed(s: MState, e: MEvent, s': MState, t: Tid, d: nat, path: string)
    requires MStep(s, e) == Some(s') && s.Visit(t) == Checking(d, path)
    ensures s'.Visit(t) == Checking(d, path) || WasServed(s, s', path, d)
  {
    if e.CheckValidity? && e.t == t {
      assert s'.served[|s.served|].path == path && s'.served[|s.served|].disc == d;
    }
  }

  /** A request that comes for a path below the prefix in use is served from that discovery with its own
      next step, which it can always take; until then it waits for nothing else. */
  lemma {:induction false} BelowPrefixIsServed(r: seq<MState>, k: nat, m: nat, t: Tid, path: string, prefix: string)
    requires IsMRun(r) && k < m < |r| && ArrivesAt(r, k, t, path) && AttachedTo(r[k], prefix) && prefix <= path
    ensures var d := r[k].slot.disc;
            && (r[m].Visit(t) == Checking(d, path) || WasServed(r[k], r[m], path, d))
            && (r[m].Visit(t) == Checking(d, path) ==> forall late :: MStep(r[m], CheckValidity(t, late)).Some?)
    decreases m
  {
    var d := r[k].slot.disc;
    MRunKeepsInv(r, m);
    assert VisitOk(r[m], t);
    if m > k + 1 {
      BelowPrefixIsServed(r, k, m - 1, t, path, prefix);
      assert MNextAt(r, m - 1);
      var e :| MStep(r[m - 1], e) == Some(r[m]);
      ServedGrows(r[m - 1], e, r[m]);
      if r[m - 1].Visit(t) == Checking(d, path) {
        CheckedOrServed(r[m - 1], e, r[m], t, d, path);
        EntersLater(r, k, m, path, d);
      } else {
        StillServed(r[k], r[m - 1], r[m], path, d);
      }
    }
  }

  lemma {:induction false} ServedOnlyGrows(r: seq<MState>, i: nat, j: nat)
    requires IsMRun(r) && i <= j < |r|
    ensures r[i].served <= r[j].served
    decreases j
  {
    if i < j {
      ServedOnlyGrows(r, i, j - 1);
      assert MNextAt(r, j - 1);
      var e :| MStep(r[j - 1], e) == Some(r[j]);
      ServedGrows(r[j - 1], e, r[j]);
    }
  }

  lemma EntersLater(r: seq<MState>, k: nat, m: nat, path: string, d: nat)
    requires IsMRun(r) && k < m < |r|
    ensures WasServed(r[m - 1], r[m], path, d) ==> WasServed(r[k], r[m], path, d)
  {
    ServedOnlyGrows(r, k, m - 1);
  }

  lemma StillServed(s: MState, s1: MState, s': MState, path: string, d: nat)
    requires WasServed(s, s1, path, d) && s1.served <= s'.served
    ensures WasServed(s, s', path, d)
  {
    var x :| |s.served| <= x < |s1.served| && s1.served[x].path == path && s1.served[x].disc == d;
    assert s'.served[x] == s1.served[x];
  }

  ghost predicate StaysAttached(r: seq<MState>, i: nat, j: nat, prefix: string)
    requires i <= j < |r|
  {
    forall k :: i <= k <= j ==> AttachedTo(r[k], prefix)
  }

  /** While discoveries with that prefix are in use, no request that comes for a path below it is handed
      to the origin: who is there, was there before. */
  lemma {:induction false} NoneReachesOrigin(r: seq<MState>, i: nat, j: nat, t: Tid, prefix: string)
    requires IsMRun(r) && i <= j < |r| && StaysAttached(r, i, j, prefix)
    requires r[j].Visit(t).AtOrigin? && prefix <= r[j].Visit(t).path
    ensures forall k :: i <= k <= j ==> r[k].Visit(t) == r[j].Visit(t)
    decreases j
  {
    if i < j {
      assert AttachedTo(r[j - 1], prefix);
      assert MNextAt(r, j - 1);
      var e :| MStep(r[j - 1], e) == Some(r[j]);
      WasAtOrigin(r[j - 1], e, r[j], t, prefix);
      NoneReachesOrigin(r, i, j - 1, t, prefix);
    }
  }

  lemma WasAtOrigin(s: MState, e: MEvent, s': MState, t: Tid, prefix: string)
    requires MStep(s, e) == Some(s') && AttachedTo(s, prefix)
    requires s'.Visit(t).AtOrigin? && prefix <= s'.Visit(t).path
    ensures s.Visit(t) == s'.Visit(t)
  {
  }

  // --- what switches it on ---

  /** With step `i - 1`, a ping has got the header for `sub`. */
  ghost predicate PingGets(r: seq<MState>, i: nat, d: nat, sub: Subtree)
    requires 0 < i < |r|
  {
    MStep(r[i - 1], PingReplies(d, 200, HeaderValue(sub))) == Some(r[i])
  }

  /** With step `k`, a visit has got the header for `sub`, and with step `i - 1`, the next of its own, it
      finds that nothing has been attached yet. */
  ghost predicate VisitGets(r: seq<MState>, k: nat, i: nat, t: Tid, sub: Subtree)
    requires k + 1 < i < |r|
  {
    && MStep(r[k], OriginReplies(t, HeaderValue(sub))) == Some(r[k + 1])
    && (forall m :: k < m < i ==> r[m].Visit(t).Advertised?)
    && r[i - 1].slot.Never? && MStep(r[i - 1], LoadAgain(t)) == Some(r[i])
  }

  ghost predicate Gets(r: seq<MState>, i: nat, who: Actor, sub: Subtree)
    requires 0 < i < |r|
  {
    match who
    case OfPing(d) => PingGets(r, i, d, sub)
    case OfVisit(t) => exists k :: 0 <= k < i - 1 && VisitGets(r, k, i, t, sub)
  }

  lemma StaysAdvertised(s: MState, e: MEvent, s': MState, t: Tid)
    requires MStep(s, e) == Some(s') && s.Visit(t).Advertised? && s'.Visit(t).Advertised?
    ensures s'.Visit(t) == s.Visit(t)
  {
  }

  lemma {:induction false} SameAdvertisement(r: seq<MState>, k: nat, m: nat, t: Tid)
    requires IsMRun(r) && k <= m < |r| && forall j :: k <= j <= m ==> r[j].Visit(t).Advertised?
    ensures r[m].Visit(t) == r[k].Visit(t)
    decreases m
  {
    if k < m {
      SameAdvertisement(r, k, m - 1, t);
      assert MNextAt(r, m - 1);
      var e :| MStep(r[m - 1], e) == Some(r[m]);
      StaysAdvertised(r[m - 1], e, r[m], t);
    }
  }

  lemma VisitWillMake(r: seq<MState>, k: nat, i: nat, t: Tid, sub: Subtree)
    requires IsMRun(r) && k + 1 < i < |r| && VisitGets(r, k, i, t, sub) && ' ' !in sub.prefix
    ensures WorkOf(r[i], OfVisit(t)) == ToMake(sub)
  {
    HeaderRoundTrip(sub);
    assert r[k + 1].Visit(t) == Advertised(sub);
    SameAdvertisement(r, k + 1, i - 1, t);
  }

  lemma PingWillMake(s: MState, d: nat, sub: Subtree, s': MState)
    requires MStep(s, PingReplies(d, 200, HeaderValue(sub))) == Some(s') && ' ' !in sub.prefix
    ensures WorkOf(s', OfPing(d)) == ToMake(sub)
  {
    HeaderRoundTrip(sub);
  }

  /** Whatever subtree the origin puts into the header is in use two steps later of the goroutine that
      got it: that of a ping, or of a request that came before anything was attached. */
  lemma HeaderComesIntoUse(r: seq<MState>, i: nat, a: nat, b: nat, who: Actor, sub: Subtree)
    requires IsMRun(r) && 0 < i <= a < b < |r| - 1 && ' ' !in sub.prefix && Gets(r, i, who, sub)
    requires Acts(r, a, who) && Acts(r, b, who)
    ensures exists k :: i < k <= b + 1 && InUse(r[k], sub, r[i].now)
  {
    match who {
      case OfPing(d) => PingWillMake(r[i - 1], d, sub, r[i]);
      case OfVisit(t) =>
        var k :| 0 <= k < i - 1 && VisitGets(r, k, i, t, sub);
        VisitWillMake(r, k, i, t, sub);
    }
    AdvertisedComesIntoUse(r, i, a, b, who, sub);
  }

  // --- what switches it off ---

  /** In this step, a request that met an advertisement finds another subtree in use. */
  ghost predicate MeetsConflict(s: MState, t: Tid, s': MState) {
    && s.Visit(t).Advertised? && s.slot.Attached? && s.slot.disc < |s.discs|
    && s.discs[s.slot.disc].subtree != s.Visit(t).sub
    && MStep(s, LoadAgain(t)) == Some(s')
  }

  ghost predicate MeetsConflictAt(r: seq<MState>, k: nat, t: Tid)
    requires k < |r| - 1
  {
    MeetsConflict(r[k], t, r[k + 1])
  }

  /** An answer to a ping that does not renew the discovery. */
  predicate IsRefusal(status: nat, header: string) {
    status != 200 || header == "" || (' ' in header && ParseHeader(header).Err?)
  }

  /** In this step, the ping of `d` cannot be sent or is refused. */
  ghost predicate PingFails(s: MState, d: nat, s': MState) {
    || MStep(s, PingNotBuilt(d)) == Some(s')
    || exists status, header :: IsRefusal(status, header) && MStep(s, PingReplies(d, status, header)) == Some(s')
  }

  ghost predicate PingFailsAt(r: seq<MState>, k: nat, d: nat)
    requires k < |r| - 1
  {
    PingFails(r[k], d, r[k + 1])
  }

  /** A request is about to detach exactly from when it met a conflict until it has done so. */
  lemma {:induction false} WillDetachFrom(r: seq<MState>, i: nat, t: Tid) returns (k: nat)
    requires IsMRun(r) && i < |r| && r[i].Visit(t).WillDetach?
    ensures k < i && MeetsConflictAt(r, k, t) && forall j :: k < j <= i ==> r[j].Visit(t).WillDetach?
  {
    assert MNextAt(r, i - 1);
    var e :| MStep(r[i - 1], e) == Some(r[i]);
    if r[i - 1].Visit(t).WillDetach? {
      k := WillDetachFrom(r, i - 1, t);
    } else {
      k := i - 1;
      BeginsToDetach(r[i - 1], e, r[i], t);
    }
  }

  lemma BeginsToDetach(s: MState, e: MEvent, s': MState, t: Tid)
    requires MStep(s, e) == Some(s') && s'.Visit(t).WillDetach? && !s.Visit(t).WillDetach?
    ensures MeetsConflict(s, t, s')
  {
  }

  lemma ConflictDetaches(s: MState, t: Tid, s': MState)
    requires MeetsConflict(s, t, s')
    ensures s'.Visit(t).WillDetach?
  {
  }

  lemma {:induction false} FailedFrom(r: seq<MState>, i: nat, d: nat) returns (k: nat)
    requires IsMRun(r) && i < |r| && d in r[i].pings && r[i].pings[d].Failed?
    ensures k < i && PingFailsAt(r, k, d) && forall j :: k < j <= i ==> d in r[j].pings && r[j].pings[d].Failed?
  {
    assert MNextAt(r, i - 1);
    var e :| MStep(r[i - 1], e) == Some(r[i]);
    if d in r[i - 1].pings && r[i - 1].pings[d].Failed? {
      k := FailedFrom(r, i - 1, d);
    } else {
      k := i - 1;
      BeginsToFail(r[i - 1], e, r[i], d);
    }
  }

  lemma BeginsToFail(s: MState, e: MEvent, s': MState, d: nat)
    requires MStep(s, e) == Some(s') && d in s'.pings && s'.pings[d].Failed? && !(d in s.pings && s.pings[d].Failed?)
    ensures PingFails(s, d, s')
  {
    if e.PingReplies? {
      assert IsRefusal(e.status, e.header);
    }
  }

  lemma FailureFails(s: MState, d: nat, s': MState)
    requires PingFails(s, d, s')
    ensures d in s'.pings && s'.pings[d].Failed?
  {
    if MStep(s, PingNotBuilt(d)) != Some(s') {
      var status, header :| IsRefusal(status, header) && MStep(s, PingReplies(d, status, header)) == Some(s');
    }
  }

  /** Turbocharging is switched off only because a request met an advertisement that conflicts with the
      subtree in use, or because a ping could not be sent or was refused. */
  lemma DetachedForReason(r: seq<MState>, i: nat)
    requires IsMRun(r) && 0 < i < |r| && r[i].slot.Detached? && !r[i - 1].slot.Detached?
    ensures || (exists k, t :: 0 <= k < i - 1 && MeetsConflictAt(r, k, t))
            || (exists k, d :: 0 <= k < i - 1 && PingFailsAt(r, k, d))
  {
    assert MNextAt(r, i - 1);
    var e :| MStep(r[i - 1], e) == Some(r[i]);
    if e.Store? {
      var k := WillDetachFrom(r, i - 1, e.t);
    } else {
      var k := FailedFrom(r, i - 1, e.d);
    }
  }

  /** And either of these does switch it off, with the next step of the goroutine that it happened to. */
  lemma ReasonDetaches(r: seq<MState>, k: nat, a: nat, who: Actor)
    requires IsMRun(r) && k < a < |r| - 1 && Acts(r, a, who)
    requires match who case OfVisit(t) => MeetsConflictAt(r, k, t) case OfPing(d) => PingFailsAt(r, k, d)
    ensures exists j :: k + 1 < j <= a + 1 && r[j].slot.Detached?
  {
    match who {
      case OfVisit(t) => ConflictDetaches(r[k], t, r[k + 1]);
      case OfPing(d) => FailureFails(r[k], d, r[k + 1]);
    }
    FailureDetaches(r, k + 1, a, who);
  }
}
