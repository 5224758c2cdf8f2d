/** Stretches of resolveManifest that a thread goes through when nobody is in its way. */
module Stretches {
  import opened Wrappers
  import opened ObjectIDs
  import opened MutexMaps
  import opened Resolver

  /** `n` steps of `t` inside resolveManifest. */
  function Goes<V(!new)>(s: RState<V>, t: Tid, n: nat): Option<RState<V>>
    decreases n
  {
    if n == 0 then Some(s)
    else
      match GoStep(s, t)
      case None => None
      case Some(s') => Goes(s', t, n - 1)
  }

  lemma GoesOn<V(!new)>(s: RState<V>, t: Tid, s': RState<V>, n: nat)
    requires GoStep(s, t) == Some(s')
    ensures Goes(s, t, n + 1) == Goes(s', t, n)
  {
  }

  /** No mutex is held, and `t` is in no call of the lock map. */
  predicate Calm<V(!new)>(s: RState<V>, t: Tid) {
    s.mu.None? && s.mm.master.None? && s.mm.At(t).Done?
  }

  ghost predicate OthersAsBefore<V(!new)>(s: RState<V>, s': RState<V>, t: Tid) {
    forall u :: u != t ==> s'.Pos(u) == s.Pos(u) && s'.mm.At(u) == s.mm.At(u)
  }

  lemma ChecksRam<V(!new)>(s: RState<V>, t: Tid, id: ObjectID) returns (s': RState<V>)
    requires Calm(s, t) && s.Pos(t) == WantMu(id) && id !in s.ram
    ensures Goes(s, t, 3) == Some(s')
    ensures s' == s.(mu := Some(t), pos := s'.pos, mm := s'.mm) && OthersAsBefore(s, s', t)
    ensures s'.Pos(t) == TryingLock(id) && s'.mm.At(t) == InTry(id, false)
    ensures s'.mm == s.mm.(master := Some(t), pc := s'.mm.pc)
  {
    var s1 := GoStep(s, t).value;
    var s2 := GoStep(s1, t).value;
    s' := GoStep(s2, t).value;
    GoesOn(s, t, s1, 2);
    GoesOn(s1, t, s2, 1);
    GoesOn(s2, t, s', 0);
  }

  lemma GetsLock<V(!new)>(s: RState<V>, t: Tid, id: ObjectID) returns (s': RState<V>)
    requires s.mu == Some(t) && s.Pos(t) == TryingLock(id) && s.mm.At(t) == InTry(id, false) && id !in s.mm.locks
    ensures Goes(s, t, 3) == Some(s')
    ensures s'.ram == s.ram && OthersAsBefore(s, s', t) && Calm(s', t)
    ensures s'.Pos(t) == Loading(id, |s.mm.made|) && MadeFor(s'.mm, |s.mm.made|, id, t) && |s.mm.made| in s'.mm.pending
  {
    var s1 := GoStep(s, t).value;
    var s2 := GoStep(s1, t).value;
    s' := GoStep(s2, t).value;
    GoesOn(s, t, s1, 2);
    GoesOn(s1, t, s2, 1);
    GoesOn(s2, t, s', 0);
  }

  lemma Publishes<V(!new)>(s: RState<V>, t: Tid, id: ObjectID, ch: Chan, v: V) returns (s': RState<V>)
    requires Calm(s, t) && s.Pos(t) == WantMuToPublish(id, ch, v) && MadeFor(s.mm, ch, id, t) && ch in s.mm.pending
    ensures Goes(s, t, 3) == Some(s')
    ensures s'.ram == s.ram[id := v] && OthersAsBefore(s, s', t) && s'.mu.None? && s'.mm.master.None?
    ensures s'.Pos(t) == Unlocking(id, ch, Some(v)) && s'.mm.At(t) == WantUnlock(id, ch)
  {
    var s1 := GoStep(s, t).value;
    var s2 := GoStep(s1, t).value;
    s' := GoStep(s2, t).value;
    GoesOn(s, t, s1, 2);
    GoesOn(s1, t, s2, 1);
    GoesOn(s2, t, s', 0);
  }

  lemma Deletes<V(!new)>(s: RState<V>, t: Tid, id: ObjectID, ch: Chan, v: V) returns (s': RState<V>)
    requires s.mu.None? && s.mm.master.None? && s.Pos(t) == Unlocking(id, ch, Some(v)) && s.mm.At(t) == WantUnlock(id, ch)
    ensures Goes(s, t, 2) == Some(s')
    ensures s'.ram == s.ram && OthersAsBefore(s, s', t) && s'.mu.None?
    ensures s'.Pos(t) == s.Pos(t) && s'.mm.At(t) == Deleted(id, ch)
  {
    var s1 := GoStep(s, t).value;
    s' := GoStep(s1, t).value;
    GoesOn(s, t, s1, 1);
    GoesOn(s1, t, s', 0);
  }

  lemma Closes<V(!new)>(s: RState<V>, t: Tid, id: ObjectID, ch: Chan, v: V) returns (s': RState<V>)
    requires s.mu.None? && s.Pos(t) == Unlocking(id, ch, Some(v)) && s.mm.At(t) == Deleted(id, ch)
    ensures Goes(s, t, 2) == Some(s')
    ensures s'.ram == s.ram && OthersAsBefore(s, s', t) && Calm(s', t)
    ensures s'.Pos(t) == Returned(id, Some(v))
  {
    var s1 := GoStep(s, t).value;
    s' := GoStep(s1, t).value;
    GoesOn(s, t, s1, 1);
    GoesOn(s1, t, s', 0);
  }

  lemma FindsInRam<V(!new)>(s: RState<V>, t: Tid, id: ObjectID) returns (s': RState<V>)
    requires Calm(s, t) && s.Pos(t) == WantMu(id) && id in s.ram
    ensures Goes(s, t, 3) == Some(s')
    ensures s'.ram == s.ram && OthersAsBefore(s, s', t) && Calm(s', t)
    ensures s'.Pos(t) == Returned(id, Some(s.ram[id]))
  {
    var s1 := GoStep(s, t).value;
    var s2 := GoStep(s1, t).value;
    s' := GoStep(s2, t).value;
    GoesOn(s, t, s1, 2);
    GoesOn(s1, t, s2, 1);
    GoesOn(s2, t, s', 0);
  }
}

/** The whole system with downloads that hang: when one does, for how long, and a run in which nothing
    fails and a request hangs all the same. */
module Hanging {
  import opened Wrappers
  import opened ObjectIDs
  import opened MutexMaps
  import opened Hydration
  import opened Resolver
  import opened Content
  import opened Serving
  import opened Pipe
  import opened Filling
  import opened World
  import opened Stretches
  import Deployment
  import Downloads

  // --- when a download hangs, and what comes of it ---

  /** The step that puts a downloaded content into its cache hangs exactly if the file is a compressible
      one and its compressed data is not read to the end, or the end does not come. */
  lemma DownloadHangsIff(c: Codecs, w: WState, t: Tid, insert: InsertFault, supply: Supply, w': WState)
    requires WStep(c, w, FillCache(t, insert, supply)) == Some(w')
    ensures w'.Task(t).Stuck? <==>
            var file := w.Task(t).choice.file;
            CompressesWell(file.path) && NotReadToEnd(file.contentID in w.gzipped, insert, supply)
    ensures w'.Task(t).Stuck? <==> w'.hydration.Pos(t).Hung?
  {
    var Fill(req, table, choice, content) := w.Task(t);
    HangsIff(c, w.gzipped, w.plain, choice.file, content, insert, supply);
  }

  /** In the whole system, the requests that are getting a file stand still if and only if every one of
      them hangs or waits for one that hangs. */
  lemma StandstillIff(c: Codecs, r: seq<WState>, i: nat)
    requires IsWRun(c, r) && i < |r|
    ensures !SomeoneInsideMoves(r[i].hydration) <==> AllInsideBlocked(r[i].hydration)
  {
    var q := Downloads.HydrationRunInside(c, r, i);
    NobodyMovesIff(q, |q| - 1);
  }

  predicate Restarted(w: WState, w': WState) {
    w' == w.(resolver := Start(), hydration := HStart(), tasks := map[])
  }

  ghost predicate NoRestart(r: seq<WState>, i: nat, j: nat)
    requires i <= j < |r|
  {
    forall k :: i <= k < j ==> !Restarted(r[k], r[k + 1])
  }

  lemma NextKeepsProcess(c: Codecs, w: WState, w': WState)
    requires WNext(c, w, w') && !Restarted(w, w')
    ensures w'.hydration == w.hydration || HNext(w.hydration, w'.hydration)
  {
    var e :| WStep(c, w, e) == Some(w');
    if IsHydrateEvent(e) {
      Downloads.HydrateMoves(c, w, e, w');
    } else if e.ReadPlain? {
      Downloads.ServeMoves(c, w, e, w');
    } else {
      QuietKeepsLock(c, w, e, w');
    }
  }

  lemma QuietKeepsLock(c: Codecs, w: WState, e: WEvent, w': WState)
    requires WStep(c, w, e) == Some(w') && !IsHydrateEvent(e) && !e.ReadPlain? && !Restarted(w, w')
    ensures w'.hydration == w.hydration
  {
    if e.Answer? { Downloads.AnswerMoves(w, e.t, w'); }
  }

  /** What one process does with the file lock, from one state of the system to a later one. */
  lemma {:induction false} SegmentInside(c: Codecs, r: seq<WState>, i: nat, j: nat) returns (q: seq<HState>, a: nat)
    requires IsWRun(c, r) && i <= j < |r| && NoRestart(r, i, j)
    ensures IsHRun(q) && a < |q| && q[a] == r[i].hydration && q[|q| - 1] == r[j].hydration
    decreases j
  {
    if i == j {
      q := Downloads.HydrationRunInside(c, r, i);
      a := |q| - 1;
    } else {
      q, a := SegmentInside(c, r, i, j - 1);
      assert WNextAt(c, r, j - 1);
      NextKeepsProcess(c, r[j - 1], r[j]);
      if r[j].hydration != r[j - 1].hydration {
        Downloads.ExtendHRun(q, r[j].hydration);
        q := q + [r[j].hydration];
      }
    }
  }

  /** A request that hangs does so until the process is restarted, and until then no request that comes
      for the same content downloads it or gets to the end of waiting for it. */
  lemma HungUntilRestart(c: Codecs, r: seq<WState>, i: nat, j: nat, u: Tid, t: Tid)
    requires IsWRun(c, r) && i <= j < |r| && NoRestart(r, i, j) && r[i].hydration.Pos(u).Hung?
    requires AtHung(r[i].hydration.Pos(t), r[i].hydration.Pos(u).id, r[i].hydration.Pos(u).ch)
    ensures r[j].hydration.Pos(u) == r[i].hydration.Pos(u)
    ensures r[j].Task(u).Stuck? && r[j].Task(u).choice.file.contentID == r[i].hydration.Pos(u).id
    ensures AtHung(r[j].hydration.Pos(t), r[i].hydration.Pos(u).id, r[i].hydration.Pos(u).ch)
  {
    Downloads.AlwaysInStep(c, r, j);
    assert Downloads.InStep(r[j].hydration.Pos(u), r[j].Task(u));
    var q, a := SegmentInside(c, r, i, j);
    BlockedForEver(q, a, |q| - 1, u);
    NobodyGetsPast(q, a, |q| - 1, u, t);
  }

  // --- runs in which nothing fails ---

  predicate DeploysSmoothly(e: Deployment.Event) {
    && !e.ReadFails?
    && (e.Store? ==> e.how == IfAbsent && e.ok)
    && (e.Publish? ==> e.how == IfAbsent && e.ok)
  }

  predicate Smooth(e: WEvent) {
    match e
    case Deploy(_, de) => DeploysSmoothly(de)
    case ManifestFromCache(_, fault) => !fault
    case ManifestFromOrigin(_, fault) => !fault
    case ManifestToCache(_, how) => how == IfAbsent
    case ReadGzip(_, fault) => !fault
    case ReadPlain(_, fault) => !fault
    case Fetch(_, fault) => !fault
    case FillCache(_, insert, supply) => insert.NoFault? && !supply.breaks
    case Restart => false
    case _ => true
  }

  ghost predicate SmoothNext(c: Codecs, w: WState, w': WState) {
    exists e :: Smooth(e) && WStep(c, w, e) == Some(w')
  }

  ghost predicate SmoothNextAt(c: Codecs, r: seq<WState>, i: nat)
    requires i < |r| - 1
  {
    SmoothNext(c, r[i], r[i + 1])
  }

  ghost predicate IsSmoothRun(c: Codecs, r: seq<WState>) {
    |r| > 0 && r[0] == WStart() && forall i :: 0 <= i < |r| - 1 ==> SmoothNextAt(c, r, i)
  }

  ghost predicate EndsIn(c: Codecs, r: seq<WState>, w: WState) {
    IsSmoothRun(c, r) && r[|r| - 1] == w
  }

  ghost predicate Reached(c: Codecs, w: WState) {
    exists r :: EndsIn(c, r, w)
  }

  lemma SmoothIsRun(c: Codecs, r: seq<WState>)
    requires IsSmoothRun(c, r)
    ensures IsWRun(c, r)
  {
    forall i | 0 <= i < |r| - 1
      ensures WNextAt(c, r, i)
    {
      assert SmoothNextAt(c, r, i);
    }
  }

  lemma StartReached(c: Codecs)
    ensures Reached(c, WStart())
  {
    assert EndsIn(c, [WStart()], WStart());
  }

  lemma Reaches(c: Codecs, w: WState, e: WEvent, w': WState)
    requires Reached(c, w) && Smooth(e) && WStep(c, w, e) == Some(w')
    ensures Reached(c, w')
  {
    var r :| EndsIn(c, r, w);
    var r' := r + [w'];
    forall i | 0 <= i < |r'| - 1
      ensures SmoothNextAt(c, r', i)
    {
      if i < |r| - 1 {
        assert SmoothNextAt(c, r, i) && r'[i] == r[i] && r'[i + 1] == r[i + 1];
      } else {
        assert r'[i] == w && r'[i + 1] == w';
      }
    }
    assert EndsIn(c, r', w');
  }

  // --- one file is deployed ---

  lemma DeployReaches(c: Codecs, w: WState, e: Deployment.Event, d: Deployment.DState, o: Origin) returns (w': WState)
    requires Reached(c, w) && 0 in w.deploys && DeploysSmoothly(e)
    requires Deployment.DStep(c, w.deploys[0], w.origin, e) == Some((d, o))
    ensures w' == w.(deploys := w.deploys[0 := d], origin := o) && Reached(c, w')
  {
    w' := w.(deploys := w.deploys[0 := d], origin := o);
    Reaches(c, w, Deploy(0, e), w');
  }

  /** The deployment of `item` alone, at some point. */
  function OneFile(item: Item, next: nat, sub: Deployment.Submitter, workers: seq<Deployment.Worker>, mu: Option<nat>,
                   files: seq<Entry>, appended: seq<Item>): Deployment.DState
  {
    Deployment.DState("", [item], next, sub, workers, mu, files, appended, [], false, Deployment.Pending)
  }

  /** Apart from a deployment, nothing has happened yet. */
  predicate OnlyDeployed(w: WState, d: Deployment.DState, o: Origin) {
    w == WStart().(deploys := map[0 := d], origin := o)
  }

  function Holding(c: Codecs, item: Item): Origin {
    Origin(map[c.hash(item.content) := item.content], map[], {item.content}, {})
  }

  lemma FileIsStored(c: Codecs, item: Item) returns (w: WState)
    ensures Reached(c, w)
    ensures OnlyDeployed(w, OneFile(item, 1, Deployment.Reading,
                                    [Deployment.WantMu(item), Deployment.Receiving, Deployment.Receiving], None, [], []),
                         Holding(c, item))
  {
    var rcv, sto, mu := Deployment.Receiving, Deployment.Storing(item), Deployment.WantMu(item);
    var empty := Origin(map[], map[], {}, {});
    assert [rcv, rcv, rcv][0 := sto] == [sto, rcv, rcv] && [sto, rcv, rcv][0 := mu] == [mu, rcv, rcv];
    assert Inserted(map[], c.hash(item.content), item.content, IfAbsent) == map[c.hash(item.content) := item.content];
    assert {} + {item.content} == {item.content};
    StartReached(c);
    var d0 := Deployment.Begin("", [item], 3);
    assert d0.workers == [rcv, rcv, rcv];
    w := WStart().(deploys := map[0 := d0]);
    Reaches(c, WStart(), Launch(0, "", [item]), w);
    w := DeployReaches(c, w, Deployment.ReadNext,
                       OneFile(item, 1, Deployment.Sending(item), [rcv, rcv, rcv], None, [], []), empty);
    w := DeployReaches(c, w, Deployment.Send(0),
                       OneFile(item, 1, Deployment.Reading, [sto, rcv, rcv], None, [], []), empty);
    w := DeployReaches(c, w, Deployment.Store(0, IfAbsent, true),
                       OneFile(item, 1, Deployment.Reading, [mu, rcv, rcv], None, [], []), Holding(c, item));
  }

  lemma FileIsListed(c: Codecs, item: Item) returns (w: WState)
    ensures Reached(c, w)
    ensures OnlyDeployed(w, OneFile(item, 1, Deployment.Closed,
                                    [Deployment.Receiving, Deployment.Receiving, Deployment.Receiving], None,
                                    [c.EntryOf(item)], [item]),
                         Holding(c, item))
  {
    var rcv, o, entry := Deployment.Receiving, Holding(c, item), c.EntryOf(item);
    var wmu, inm := Deployment.WantMu(item), Deployment.InMu(item, []);
    assert [wmu, rcv, rcv][0 := inm] == [inm, rcv, rcv] && [inm, rcv, rcv][0 := rcv] == [rcv, rcv, rcv];
    assert [] + [entry] == [entry] && [] + [item] == [item];
    w := FileIsStored(c, item);
    w := DeployReaches(c, w, Deployment.Lock(0),
                       OneFile(item, 1, Deployment.Reading, [inm, rcv, rcv], Some(0), [], []), o);
    w := DeployReaches(c, w, Deployment.Append(0),
                       OneFile(item, 1, Deployment.Reading, [rcv, rcv, rcv], None, [entry], [item]), o);
    w := DeployReaches(c, w, Deployment.ReadNext,
                       OneFile(item, 1, Deployment.Closed, [rcv, rcv, rcv], None, [entry], [item]), o);
  }

  function OneFileManifest(c: Codecs, item: Item): Manifest {
    Manifest("", [c.EntryOf(item)])
  }

  /** The site of one file: its manifest and its content are in the origin. */
  ghost predicate SiteOf(c: Codecs, item: Item, o: Origin) {
    var b := c.encode(OneFileManifest(c, item));
    && c.hash(item.content) in o.files && o.files[c.hash(item.content)] == item.content
    && c.hash(b) in o.manifests && o.manifests[c.hash(b)] == b
  }

  lemma SiteIsPublished(c: Codecs, item: Item) returns (w: WState)
    ensures Reached(c, w) && SiteOf(c, item, w.origin)
    ensures w == WStart().(deploys := w.deploys, origin := w.origin)
  {
    var rcv, stop, o, entry := Deployment.Receiving, Deployment.Stopped, Holding(c, item), c.EntryOf(item);
    assert [rcv, rcv, rcv][0 := stop] == [stop, rcv, rcv] && [stop, rcv, rcv][1 := stop] == [stop, stop, rcv]
           && [stop, stop, rcv][2 := stop] == [stop, stop, stop];
    w := FileIsListed(c, item);
    w := DeployReaches(c, w, Deployment.Drain(0),
                       OneFile(item, 1, Deployment.Closed, [stop, rcv, rcv], None, [entry], [item]), o);
    w := DeployReaches(c, w, Deployment.Drain(1),
                       OneFile(item, 1, Deployment.Closed, [stop, stop, rcv], None, [entry], [item]), o);
    w := DeployReaches(c, w, Deployment.Drain(2),
                       OneFile(item, 1, Deployment.Closed, [stop, stop, stop], None, [entry], [item]), o);
    var m := OneFileManifest(c, item);
    var d := OneFile(item, 1, Deployment.Closed, [stop, stop, stop], None, [entry], [item]);
    w := DeployReaches(c, w, Deployment.Wait([entry]), d.(outcome := Deployment.Publishing(m)), o);
    var b := c.encode(m);
    assert Inserted(map[], c.hash(b), b, IfAbsent) == map[c.hash(b) := b];
    assert {} + {Release(c.hash(b), m, [item])} == {Release(c.hash(b), m, [item])};
    w := DeployReaches(c, w, Deployment.Publish(IfAbsent, true), d.(outcome := Deployment.Deployed(c.hash(b), m)),
                       Origin(o.files, map[c.hash(b) := b], o.seen + {b}, {Release(c.hash(b), m, [item])}));
  }

  // --- two requests resolve its manifest ---

  lemma {:induction false} GoesReaches(c: Codecs, w: WState, t: Tid, n: nat, s: RState<Table>)
    requires Reached(c, w) && w.Task(t).Resolving? && Goes(w.resolver, t, n) == Some(s)
    ensures Reached(c, w.(resolver := s))
    decreases n
  {
    if n > 0 {
      ResolveReaches(c, w, t);
      GoesReaches(c, w.(resolver := GoStep(w.resolver, t).value), t, n - 1, s);
    }
  }

  lemma ResolveReaches(c: Codecs, w: WState, t: Tid)
    requires Reached(c, w) && w.Task(t).Resolving? && GoStep(w.resolver, t).Some?
    ensures Reached(c, w.(resolver := GoStep(w.resolver, t).value))
  {
    Reaches(c, w, Resolve(t), w.(resolver := GoStep(w.resolver, t).value));
  }

  /** Everything as in `w`, but for the resolver and the task of `t`, which is `task` now. */
  ghost predicate OnlyMoved(w: WState, w': WState, t: Tid, task: Task) {
    w' == w.(resolver := w'.resolver, tasks := w.tasks[t := task]) && OthersAsBefore(w.resolver, w'.resolver, t)
  }

  lemma StartsLoading(c: Codecs, w: WState, t: Tid, req: Request) returns (w': WState)
    requires Reached(c, w) && w.Task(t).NoTask? && Calm(w.resolver, t) && w.resolver.Pos(t).Idle?
    requires req.manifestID !in w.resolver.ram && req.manifestID !in w.resolver.mm.locks
    ensures Reached(c, w') && OnlyMoved(w, w', t, Resolving(req))
    ensures w'.resolver.ram == w.resolver.ram && Calm(w'.resolver, t)
    ensures w'.resolver.Pos(t).Loading? && w'.resolver.Pos(t).id == req.manifestID
    ensures MadeFor(w'.resolver.mm, w'.resolver.Pos(t).ch, req.manifestID, t) && w'.resolver.Pos(t).ch in w'.resolver.mm.pending
  {
    var id := req.manifestID;
    var w1 := Asks(c, w, t, req);
    var s1 := ChecksRam(w1.resolver, t, id);
    var s2 := GetsLock(s1, t, id);
    GoesReaches(c, w1, t, 3, s1);
    GoesReaches(c, w1.(resolver := s1), t, 3, s2);
    w' := w1.(resolver := s2);
  }

  lemma Asks(c: Codecs, w: WState, t: Tid, req: Request) returns (w': WState)
    requires Reached(c, w) && w.Task(t).NoTask? && w.resolver.Pos(t).Idle?
    ensures Reached(c, w') && w' == w.(resolver := w'.resolver, tasks := w.tasks[t := Resolving(req)])
    ensures w'.resolver == w.resolver.Goto(t, Resolver.WantMu(req.manifestID))
  {
    w' := w.Do(t, Resolving(req)).(resolver := w.resolver.Goto(t, Resolver.WantMu(req.manifestID)));
    Reaches(c, w, Ask(t, req), w');
  }

  /** What the steps of `t` up to its first look into the caches leave alone. */
  ghost predicate Frame(w: WState, w': WState, t: Tid) {
    && w'.origin == w.origin && w'.gzipped == w.gzipped && w'.hydration == w.hydration
    && (forall u :: u != t ==> w'.Task(u) == w.Task(u))
    && OthersAsBefore(w.resolver, w'.resolver, t)
  }

  lemma ReadsManifest(c: Codecs, w: WState, t: Tid, req: Request) returns (w': WState)
    requires Reached(c, w) && w.Task(t) == Resolving(req) && w.resolver.Pos(t).Loading?
    requires req.manifestID !in w.plain && req.manifestID in w.origin.manifests
    ensures Reached(c, w') && Frame(w, w', t) && w'.resolver == w.resolver
    ensures w'.Task(t) == Decoding(req, w.origin.manifests[req.manifestID])
    ensures w'.plain == w.plain[req.manifestID := w.origin.manifests[req.manifestID]]
  {
    var id, b := req.manifestID, w.origin.manifests[req.manifestID];
    var w1 := w.Do(t, LoadFromOrigin(req));
    Reaches(c, w, ManifestFromCache(t, false), w1);
    var w2 := w1.Do(t, LoadIntoCache(req, b));
    Reaches(c, w1, ManifestFromOrigin(t, false), w2);
    w' := w2.Do(t, Decoding(req, b)).(plain := w.plain[id := b]);
    Reaches(c, w2, ManifestToCache(t, IfAbsent), w');
  }

  lemma EndsLoading(c: Codecs, w: WState, t: Tid, req: Request, ch: Chan) returns (w': WState)
    requires Reached(c, w) && w.Task(t).Decoding? && w.Task(t).req == req
    requires w.resolver.Pos(t) == Resolver.Loading(req.manifestID, ch) && c.decode(w.Task(t).bytes).Some?
    ensures Reached(c, w') && Frame(w, w', t) && w'.plain == w.plain && w'.Task(t) == Resolving(req)
    ensures var v := Optimized(c.decode(w.Task(t).bytes).value.files);
            w'.resolver.Pos(t) == WantMuToPublish(req.manifestID, ch, v)
    ensures w'.resolver.ram == w.resolver.ram && w'.resolver.mm == w.resolver.mm && w'.resolver.mu == w.resolver.mu
  {
    var v := Optimized(c.decode(w.Task(t).bytes).value.files);
    w' := w.Do(t, Resolving(req)).(resolver := RStep(w.resolver, t, LoadEnds(Some(v))).value);
    Reaches(c, w, Decode(t), w');
  }

  lemma ReturnsTable(c: Codecs, w: WState, t: Tid, req: Request, ch: Chan, v: Table) returns (w': WState)
    requires Reached(c, w) && w.Task(t) == Resolving(req) && Calm(w.resolver, t)
    requires w.resolver.Pos(t) == WantMuToPublish(req.manifestID, ch, v)
    requires MadeFor(w.resolver.mm, ch, req.manifestID, t) && ch in w.resolver.mm.pending
    ensures Reached(c, w') && Frame(w, w', t) && w'.plain == w.plain && w'.Task(t) == Resolving(req)
    ensures w'.resolver.Pos(t) == Returned(req.manifestID, Some(v)) && Calm(w'.resolver, t)
    ensures w'.resolver.ram == w.resolver.ram[req.manifestID := v]
  {
    var id := req.manifestID;
    var s1 := Publishes(w.resolver, t, id, ch, v);
    GoesReaches(c, w, t, 3, s1);
    w' := FreesAndReturns(c, w.(resolver := s1), t, req, ch, v);
  }

  lemma FreesAndReturns(c: Codecs, w: WState, t: Tid, req: Request, ch: Chan, v: Table) returns (w': WState)
    requires Reached(c, w) && w.Task(t) == Resolving(req) && w.resolver.mu.None? && w.resolver.mm.master.None?
    requires w.resolver.Pos(t) == Unlocking(req.manifestID, ch, Some(v))
    requires w.resolver.mm.At(t) == WantUnlock(req.manifestID, ch)
    ensures Reached(c, w') && w' == w.(resolver := w'.resolver) && OthersAsBefore(w.resolver, w'.resolver, t)
    ensures w'.resolver.Pos(t) == Returned(req.manifestID, Some(v)) && Calm(w'.resolver, t)
    ensures w'.resolver.ram == w.resolver.ram
  {
    var s1 := Stretches.Deletes(w.resolver, t, req.manifestID, ch, v);
    var s2 := Stretches.Closes(s1, t, req.manifestID, ch, v);
    GoesReaches(c, w, t, 2, s1);
    GoesReaches(c, w.(resolver := s1), t, 2, s2);
    w' := w.(resolver := s2);
  }

  /** The table of the site is in hand, and the caches are about to be looked into. */
  lemma ChoosesFile(c: Codecs, w: WState, t: Tid, req: Request, v: Table) returns (w': WState)
    requires Reached(c, w) && w.Task(t) == Resolving(req) && w.resolver.Pos(t) == Returned(req.manifestID, Some(v))
    requires Choose(v, req.path).Some? && !ClientHasIt(req, Choose(v, req.path).value.file)
    ensures Reached(c, w') && Frame(w, w', t) && w'.plain == w.plain && w'.resolver == w.resolver
    ensures w'.Task(t) == TryGzip(req, v, Choose(v, req.path).value, false)
  {
    w' := w.Do(t, TryGzip(req, v, Choose(v, req.path).value, false));
    Reaches(c, w, Answer(t), w');
  }

  /** The table and the choice that requests for the path of the one file come to. */
  function TheTable(c: Codecs, item: Item): Table {
    map[item.path := c.EntryOf(item)]
  }

  function TheRequest(c: Codecs, item: Item): Request {
    Request(c.hash(c.encode(OneFileManifest(c, item))), item.path, "", "")
  }

  function TheChoice(c: Codecs, item: Item): Choice {
    Choice(c.EntryOf(item), 200)
  }

  lemma ChoiceIsMade(c: Codecs, item: Item)
    ensures Optimized(OneFileManifest(c, item).files) == TheTable(c, item)
    ensures Choose(TheTable(c, item), item.path) == Some(TheChoice(c, item))
    ensures !ClientHasIt(TheRequest(c, item), c.EntryOf(item))
  {
    var e := c.EntryOf(item);
    assert [e][..0] == [] && Optimized([]) == map[];
    assert map[][item.path := e] == map[item.path := e];
    assert ETagUncompressed(e.contentID)[0] == '\"' && ETagGZipped(e.contentID)[0] == '\"';
  }

  /** No thread but those in `busy` has a task. */
  ghost predicate OthersIdle(w: WState, busy: set<Tid>) {
    forall u :: u !in busy ==> w.Task(u).NoTask? && w.resolver.Pos(u).Idle? && w.resolver.mm.At(u).Done?
  }

  lemma FirstLoads(c: Codecs, item: Item) returns (w: WState)
    requires c.Lawful()
    ensures var req, p := TheRequest(c, item), w.resolver.Pos(0);
            && Reached(c, w) && SiteOf(c, item, w.origin) && OthersIdle(w, {0})
            && w.gzipped == map[] && w.plain.Keys == {req.manifestID} && w.hydration == HStart()
            && w.Task(0).Decoding? && w.Task(0).req == req && w.Task(0).bytes == c.encode(OneFileManifest(c, item))
            && Calm(w.resolver, 0) && p.Loading? && p.id == req.manifestID
            && MadeFor(w.resolver.mm, p.ch, p.id, 0) && p.ch in w.resolver.mm.pending
  {
    var req := TheRequest(c, item);
    var w0 := SiteIsPublished(c, item);
    var w1 := StartsLoading(c, w0, 0, req);
    w := ReadsManifest(c, w1, 0, req);
    assert w.plain == map[req.manifestID := c.encode(OneFileManifest(c, item))];
  }

  /** Everything up to the first look into the caches. */
  ghost predicate BeforeCaches(c: Codecs, item: Item, w: WState) {
    && Reached(c, w) && SiteOf(c, item, w.origin) && w.gzipped == map[] && w.hydration == HStart()
    && w.plain.Keys == {TheRequest(c, item).manifestID}
  }

  predicate Looks(c: Codecs, item: Item, w: WState, t: Tid) {
    w.Task(t) == TryGzip(TheRequest(c, item), TheTable(c, item), TheChoice(c, item), false)
  }

  lemma FirstRequest(c: Codecs, item: Item) returns (w: WState)
    requires c.Lawful()
    ensures BeforeCaches(c, item, w) && Looks(c, item, w, 0) && OthersIdle(w, {0})
    ensures w.resolver.mu.None? && w.resolver.mm.master.None?
    ensures TheRequest(c, item).manifestID in w.resolver.ram
    ensures w.resolver.ram[TheRequest(c, item).manifestID] == TheTable(c, item)
  {
    var req, v := TheRequest(c, item), TheTable(c, item);
    var w1 := FirstLoads(c, item);
    var ch := w1.resolver.Pos(0).ch;
    assert c.decode(w1.Task(0).bytes) == Some(OneFileManifest(c, item));
    ChoiceIsMade(c, item);
    var w2 := EndsLoading(c, w1, 0, req, ch);
    var w3 := ReturnsTable(c, w2, 0, req, ch, v);
    w := ChoosesFile(c, w3, 0, req, v);
  }

  lemma BothRequests(c: Codecs, item: Item) returns (w: WState)
    requires c.Lawful()
    ensures BeforeCaches(c, item, w) && Looks(c, item, w, 0) && Looks(c, item, w, 1)
  {
    var req, v := TheRequest(c, item), TheTable(c, item);
    ChoiceIsMade(c, item);
    var w1 := FirstRequest(c, item);
    var w2 := Asks(c, w1, 1, req);
    var s := FindsInRam(w2.resolver, 1, req.manifestID);
    GoesReaches(c, w2, 1, 3, s);
    w := ChoosesFile(c, w2.(resolver := s), 1, req, v);
  }

  // --- both miss, one after the other downloads, and the second hangs ---

  lemma MissesGzip(c: Codecs, item: Item, w: WState, t: Tid) returns (w': WState)
    requires Reached(c, w) && Looks(c, item, w, t) && w.gzipped == map[]
    ensures Reached(c, w') && w' == w.(tasks := w.tasks[t := TryPlain(TheRequest(c, item), TheTable(c, item), TheChoice(c, item), false)])
  {
    w' := w.Do(t, TryPlain(TheRequest(c, item), TheTable(c, item), TheChoice(c, item), false));
    Reaches(c, w, ReadGzip(t, false), w');
  }

  predicate Hydrates(c: Codecs, item: Item, w: WState, t: Tid) {
    w.Task(t) == Hydrate(TheRequest(c, item), TheTable(c, item), TheChoice(c, item))
  }

  lemma MissesBoth(c: Codecs, item: Item, w: WState, t: Tid) returns (w': WState)
    requires Reached(c, w) && Looks(c, item, w, t) && w.gzipped == map[] && c.hash(item.content) !in w.plain
    requires w.hydration.Pos(t).HIdle? && w.hydration.mm.At(t).Done?
    ensures Reached(c, w') && Hydrates(c, item, w', t)
    ensures w' == w.(tasks := w'.tasks, hydration := w'.hydration) && forall u :: u != t ==> w'.Task(u) == w.Task(u)
    ensures HStep(w.hydration, t, Come(c.hash(item.content))) == Some(w'.hydration)
  {
    var w1 := MissesGzip(c, item, w, t);
    var id := c.hash(item.content);
    w' := w1.Do(t, Hydrate(TheRequest(c, item), TheTable(c, item), TheChoice(c, item)))
      .(hydration := HStep(w.hydration, t, Come(id)).value);
    Reaches(c, w1, ReadPlain(t, false), w');
  }

  /** `t` is about to ask for the lock of `id`. */
  predicate Comes(h: HState, t: Tid, id: ObjectID) {
    h.Pos(t) == Trying(id) && h.mm.At(t) == WantTry(id, false)
  }

  lemma BothMiss(c: Codecs, item: Item) returns (w: WState)
    requires c.Lawful() && c.hash(item.content) != TheRequest(c, item).manifestID
    ensures Reached(c, w) && SiteOf(c, item, w.origin) && w.gzipped == map[] && c.hash(item.content) !in w.plain
    ensures Hydrates(c, item, w, 0) && Hydrates(c, item, w, 1)
    ensures Comes(w.hydration, 0, c.hash(item.content)) && Comes(w.hydration, 1, c.hash(item.content))
    ensures w.hydration.mm.master.None? && w.hydration.mm.locks == map[] && w.hydration.mm.made == []
  {
    var w1 := BothRequests(c, item);
    var w2 := MissesBoth(c, item, w1, 0);
    w := MissesBoth(c, item, w2, 1);
  }

  ghost predicate OtherLockUsersAsBefore(h: HState, h': HState, t: Tid) {
    forall u :: u != t ==> h'.Pos(u) == h.Pos(u) && h'.mm.At(u) == h.mm.At(u)
  }

  lemma LockReaches(c: Codecs, w: WState, t: Tid) returns (w': WState)
    requires Reached(c, w) && (w.Task(t).Hydrate? || w.Task(t).EndHydrate?) && HStep(w.hydration, t, Proceed).Some?
    ensures Reached(c, w') && w' == w.(hydration := HStep(w.hydration, t, Proceed).value)
  {
    w' := w.(hydration := HStep(w.hydration, t, Proceed).value);
    Reaches(c, w, FileLock(t), w');
  }

  lemma GetsFileLock(c: Codecs, w: WState, t: Tid, id: ObjectID) returns (w': WState)
    requires Reached(c, w) && w.Task(t).Hydrate? && Comes(w.hydration, t, id)
    requires w.hydration.mm.master.None? && id !in w.hydration.mm.locks
    ensures Reached(c, w') && w' == w.(hydration := w'.hydration) && OtherLockUsersAsBefore(w.hydration, w'.hydration, t)
    ensures var mm := w'.hydration.mm;
            && w'.hydration.Pos(t) == Hydration.Downloading(id, |w.hydration.mm.made|) && mm.At(t).Done? && mm.master.None?
            && mm.locks == w.hydration.mm.locks[id := |w.hydration.mm.made|]
            && Owns(mm, t, id, |w.hydration.mm.made|)
  {
    var w1 := LockReaches(c, w, t);
    w' := LockReaches(c, w1, t);
  }

  lemma Fetches(c: Codecs, item: Item, w: WState, t: Tid) returns (w': WState)
    requires Reached(c, w) && SiteOf(c, item, w.origin) && Hydrates(c, item, w, t) && w.hydration.Pos(t).Downloading?
    ensures Reached(c, w')
    ensures w' == w.(tasks := w.tasks[t := Fill(TheRequest(c, item), TheTable(c, item), TheChoice(c, item), item.content)])
  {
    w' := w.Do(t, Fill(TheRequest(c, item), TheTable(c, item), TheChoice(c, item), item.content));
    Reaches(c, w, Fetch(t, false), w');
  }

  /** A download into a cache without the object ends, and its lock is about to be given back. */
  lemma Fills(c: Codecs, item: Item, w: WState, t: Tid) returns (w': WState)
    requires Reached(c, w) && CompressesWell(item.path) && c.hash(item.content) !in w.gzipped
    requires w.Task(t) == Fill(TheRequest(c, item), TheTable(c, item), TheChoice(c, item), item.content)
    requires w.hydration.Pos(t).Downloading? && HStep(w.hydration, t, EndDownload).Some?
    ensures Reached(c, w') && c.hash(item.content) in w'.gzipped
    ensures w' == w.(gzipped := w'.gzipped, hydration := HStep(w.hydration, t, EndDownload).value,
                     tasks := w.tasks[t := EndHydrate(TheRequest(c, item), TheTable(c, item), TheChoice(c, item), true)])
  {
    var id := c.hash(item.content);
    var g := w.gzipped[id := c.gzip(item.content)];
    w' := w.(gzipped := g, hydration := HStep(w.hydration, t, EndDownload).value)
      .Do(t, EndHydrate(TheRequest(c, item), TheTable(c, item), TheChoice(c, item), true));
    assert FillCaches(c, w.gzipped, w.plain, c.EntryOf(item), item.content, NoFault, Supply(0, false)) == Ends(g, w.plain, true);
    Reaches(c, w, FillCache(t, NoFault, Supply(0, false)), w');
  }

  /** ... and into one that has it, hangs. */
  lemma FillsAndHangs(c: Codecs, item: Item, w: WState, t: Tid) returns (w': WState)
    requires Reached(c, w) && CompressesWell(item.path) && c.hash(item.content) in w.gzipped
    requires w.Task(t) == Fill(TheRequest(c, item), TheTable(c, item), TheChoice(c, item), item.content)
    requires w.hydration.Pos(t).Downloading?
    ensures Reached(c, w') && w'.Task(t).Stuck?
    ensures w' == w.(hydration := HStep(w.hydration, t, Hang).value,
                     tasks := w.tasks[t := Stuck(TheRequest(c, item), TheTable(c, item), TheChoice(c, item))])
  {
    w' := w.Do(t, Stuck(TheRequest(c, item), TheTable(c, item), TheChoice(c, item)))
      .(hydration := HStep(w.hydration, t, Hang).value);
    FaultlessHangsIff(c, w.gzipped, w.plain, c.EntryOf(item), item.content, 0);
    Reaches(c, w, FillCache(t, NoFault, Supply(0, false)), w');
  }

  /** The lock is given back. */
  lemma Releases(c: Codecs, w: WState, t: Tid, id: ObjectID, ch: Chan) returns (w': WState)
    requires Reached(c, w) && w.Task(t).EndHydrate? && w.hydration.Pos(t) == Hydration.Releasing(id, ch)
    requires w.hydration.mm.At(t) == WantUnlock(id, ch) && w.hydration.mm.master.None?
    ensures Reached(c, w') && w' == w.(hydration := w'.hydration) && OtherLockUsersAsBefore(w.hydration, w'.hydration, t)
    ensures w'.hydration.mm.locks == w.hydration.mm.locks - {id} && w'.hydration.mm.master.None?
    ensures w'.hydration.Pos(t) == Hydration.Released(id)
  {
    var w1 := Deletes(c, w, t, id, ch);
    w' := Closes(c, w1, t, id, ch);
  }

  lemma Deletes(c: Codecs, w: WState, t: Tid, id: ObjectID, ch: Chan) returns (w': WState)
    requires Reached(c, w) && w.Task(t).EndHydrate? && w.hydration.Pos(t) == Hydration.Releasing(id, ch)
    requires w.hydration.mm.At(t) == WantUnlock(id, ch) && w.hydration.mm.master.None?
    ensures Reached(c, w') && w' == w.(hydration := w'.hydration) && OtherLockUsersAsBefore(w.hydration, w'.hydration, t)
    ensures w'.hydration.mm.locks == w.hydration.mm.locks - {id}
    ensures w'.hydration.Pos(t) == w.hydration.Pos(t) && w'.hydration.mm.At(t) == Deleted(id, ch)
  {
    var w1 := LockReaches(c, w, t);
    w' := LockReaches(c, w1, t);
  }

  lemma Closes(c: Codecs, w: WState, t: Tid, id: ObjectID, ch: Chan) returns (w': WState)
    requires Reached(c, w) && w.Task(t).EndHydrate? && w.hydration.Pos(t) == Hydration.Releasing(id, ch)
    requires w.hydration.mm.At(t) == Deleted(id, ch)
    ensures Reached(c, w') && w' == w.(hydration := w'.hydration) && OtherLockUsersAsBefore(w.hydration, w'.hydration, t)
    ensures w'.hydration.mm.locks == w.hydration.mm.locks && w'.hydration.mm.master.None?
    ensures w'.hydration.Pos(t) == Hydration.Released(id)
  {
    var w1 := LockReaches(c, w, t);
    w' := LockReaches(c, w1, t);
  }

  lemma FirstDownloads(c: Codecs, item: Item) returns (w: WState)
    requires c.Lawful() && c.hash(item.content) != TheRequest(c, item).manifestID && CompressesWell(item.path)
    ensures var id := c.hash(item.content);
            && Reached(c, w) && SiteOf(c, item, w.origin) && id in w.gzipped && w.Task(0).EndHydrate? && Hydrates(c, item, w, 1)
            && w.hydration.mm.At(0) == WantUnlock(id, 0) && w.hydration.Pos(0) == Hydration.Releasing(id, 0)
            && Comes(w.hydration, 1, id) && w.hydration.mm.master.None? && w.hydration.mm.locks == map[id := 0]
  {
    var id := c.hash(item.content);
    var w1 := BothMiss(c, item);
    var w2 := GetsFileLock(c, w1, 0, id);
    assert w2.hydration.mm.locks == map[id := 0];
    var w3 := Fetches(c, item, w2, 0);
    w := Fills(c, item, w3, 0);
  }

  /** Two requests for one file, neither of them stopped by any fault, and the second never returns:
      both missed the caches before the first filled them. */
  lemma TwoRequestsHang(c: Codecs, item: Item) returns (r: seq<WState>)
    requires c.Lawful() && c.hash(item.content) != TheRequest(c, item).manifestID && CompressesWell(item.path)
    ensures IsSmoothRun(c, r) && IsWRun(c, r)
    ensures var w := r[|r| - 1];
            w.Task(1).Stuck? && w.Task(1).req == TheRequest(c, item) && w.hydration.Pos(1).Hung?
  {
    var id := c.hash(item.content);
    var w1 := FirstDownloads(c, item);
    var w2 := Releases(c, w1, 0, id, 0);
    var w3 := GetsFileLock(c, w2, 1, id);
    var w4 := Fetches(c, item, w3, 1);
    var w := FillsAndHangs(c, item, w4, 1);
    r :| EndsIn(c, r, w);
    SmoothIsRun(c, r);
  }
}
