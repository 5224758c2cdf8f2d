/** Runs of the whole system in which nothing fails that a request depends on: every answer is a proper
    one, whatever is interleaved. */
module Faultless {
  import opened Wrappers
  import opened Strings
  import opened MutexMaps
  import opened Hydration
  import opened Content
  import opened Serving
  import opened Pipe
  import opened Filling
  import opened World
  import opened Answers
  import Deployment
  import Downloads
  import Hanging

  // --- nothing fails ---

  /** What is asked for is published, the origin is reached, both caches can be read and written. Deployments,
      the manifest's copy in the cache and restarts may be as they like. */
  predicate Clean(w: WState, e: WEvent) {
    match e
    case Ask(_, req) => req.manifestID in w.origin.manifests
    case ManifestFromOrigin(_, fault) => !fault
    case ReadGzip(_, fault) => !fault
    case ReadPlain(_, fault) => !fault
    case Fetch(_, fault) => !fault
    case FillCache(_, insert, supply) => insert.NoFault? && !supply.breaks
    case _ => true
  }

  ghost predicate CleanNext(c: Codecs, w: WState, w': WState) {
    exists e :: Clean(w, e) && WStep(c, w, e) == Some(w')
  }

  ghost predicate CleanNextAt(c: Codecs, r: seq<WState>, i: nat)
    requires i < |r| - 1
  {
    CleanNext(c, r[i], r[i + 1])
  }

  ghost predicate IsCleanRun(c: Codecs, r: seq<WState>) {
    |r| > 0 && r[0] == WStart() && forall i :: 0 <= i < |r| - 1 ==> CleanNextAt(c, r, i)
  }

  lemma CleanIsRun(c: Codecs, r: seq<WState>)
    requires IsCleanRun(c, r)
    ensures IsWRun(c, r)
  {
    forall i | 0 <= i < |r| - 1
      ensures WNextAt(c, r, i)
    {
      assert CleanNextAt(c, r, i);
    }
  }

  /** The request is for a published manifest, and has hope. */
  predicate CTaskOk(w: WState, t: Tid) {
    var task := w.Task(t);
    task.NoTask? || (task.req.manifestID in w.origin.manifests && !Hopeless(w, t, task.req))
  }

  ghost predicate CInv(w: WState) {
    AFine(w, {}, {}) && forall t :: CTaskOk(w, t)
  }

  /** The chosen file of a published site can be had. */
  lemma ChoiceIsThere(c: Codecs, w: WState, req: Request, table: Table, choice: Choice)
    requires c.Lawful() && Deployment.OInv(c, w.origin) && c.NoCollision(w.origin.seen)
    requires ChosenFrom(c, w.origin.seen, req, table, choice) && req.manifestID in w.origin.manifests
    ensures choice.file.contentID in w.origin.files
  {
    var id, o := req.manifestID, w.origin;
    ManifestIsGenuine(c, o, id);
    Deployment.PublishedIsComplete(c, o, id);
    var files := c.decode(o.manifests[id]).value.files;
    assert TableOf(c, o.seen, id, Optimized(files));
    TableIsUnique(c, o.seen, id, table, Optimized(files));
    OptimizedHasAll(files);
  }

  lemma FetchFinds(c: Codecs, w: WState, t: Tid)
    requires c.Lawful() && WInv(c, w) && c.NoCollision(w.origin.seen) && CTaskOk(w, t) && w.Task(t).Hydrate?
    ensures w.Task(t).choice.file.contentID in w.origin.files
  {
    assert TaskOk(c, w.origin.seen, w.resolver.Pos(t), w.Task(t));
    var Hydrate(req, table, choice) := w.Task(t);
    ChoiceIsThere(c, w, req, table, choice);
  }

  /** Every request that looks for a file at the origin will find it. */
  predicate Finds(w: WState, t: Tid) {
    w.Task(t).Hydrate? ==> w.Task(t).choice.file.contentID in w.origin.files
  }

  ghost predicate AllFind(w: WState) {
    forall t :: Finds(w, t)
  }

  lemma EveryoneFinds(c: Codecs, w: WState)
    requires c.Lawful() && WInv(c, w) && c.NoCollision(w.origin.seen) && CInv(w)
    ensures AllFind(w)
  {
    forall t
      ensures Finds(w, t)
    {
      assert CTaskOk(w, t);
      if w.Task(t).Hydrate? { FetchFinds(c, w, t); }
    }
  }

  lemma FetchIsClean(w: WState, t: Tid, w': WState)
    requires w.Task(t).Hydrate? && w.Task(t).choice.file.contentID in w.origin.files && FetchStep(w, t, false) == Some(w')
    ensures !DownloadFails(w, w', t)
  {
  }

  lemma FillIsClean(c: Codecs, w: WState, t: Tid, supply: Supply, w': WState)
    requires w.Task(t).Fill? && !supply.breaks && FillStep(c, w, t, NoFault, supply) == Some(w')
    ensures !DownloadFails(w, w', t)
  {
    var Fill(req, table, choice, content) := w.Task(t);
    SucceedsIff(c, w.gzipped, w.plain, choice.file, content, NoFault, supply);
    HangsIff(c, w.gzipped, w.plain, choice.file, content, NoFault, supply);
  }

  lemma ServeIsClean(c: Codecs, w: WState, e: WEvent, w': WState)
    requires ServeStep(c, w, e) == Some(w') && Clean(w, e)
    ensures !OwnFailure(w, w', e.t)
  {
    if e.Answer? { AnswerIsClean(w, e.t, w'); }
  }

  lemma AnswerIsClean(w: WState, t: Tid, w': WState)
    requires AnswerStep(w, t) == Some(w')
    ensures !OwnFailure(w, w', t)
  {
  }

  lemma MoverIsClean(c: Codecs, w: WState, e: WEvent, w': WState)
    requires HydrateStep(c, w, e) == Some(w') && Clean(w, e) && Finds(w, e.t)
    ensures !OwnFailure(w, w', e.t)
  {
    match e {
      case Fetch(t, _) => FetchIsClean(w, t, w');
      case FillCache(t, _, supply) => FillIsClean(c, w, t, supply, w');
      case _ => LockIsClean(c, w, e, w');
    }
  }

  lemma LockIsClean(c: Codecs, w: WState, e: WEvent, w': WState)
    requires HydrateStep(c, w, e) == Some(w') && (e.FileLock? || e.AfterWait? || e.AfterRelease?)
    ensures !OwnFailure(w, w', e.t)
  {
  }

  lemma EarlyIsClean(c: Codecs, w: WState, e: WEvent, w': WState, u: Tid)
    requires WStep(c, w, e) == Some(w')
    requires e.Launch? || e.Deploy? || e.Ask? || e.Resolve? || IsLoadEvent(e)
    ensures !OwnFailure(w, w', u)
  {
    EarlyMoves(c, w, e, w');
  }

  lemma OthersAreClean(w: WState, w': WState, t: Tid, u: Tid)
    requires u != t && forall v :: v != t ==> w'.Task(v) == w.Task(v)
    ensures !OwnFailure(w, w', u)
  {
  }

  lemma StepIsClean(c: Codecs, w: WState, e: WEvent, w': WState, u: Tid)
    requires AllFind(w) && WStep(c, w, e) == Some(w') && Clean(w, e) && !Hanging.Restarted(w, w')
    ensures !OwnFailure(w, w', u)
  {
    if IsHydrateEvent(e) {
      HydrateIsClean(c, w, e, w', u);
    } else {
      RestIsClean(c, w, e, w', u);
    }
  }

  lemma HydrateIsClean(c: Codecs, w: WState, e: WEvent, w': WState, u: Tid)
    requires AllFind(w) && HydrateStep(c, w, e) == Some(w') && Clean(w, e)
    ensures !OwnFailure(w, w', u)
  {
    assert Finds(w, e.t);
    Downloads.HydrateMoves(c, w, e, w');
    if u == e.t { MoverIsClean(c, w, e, w'); } else { OthersAreClean(w, w', e.t, u); }
  }

  lemma RestIsClean(c: Codecs, w: WState, e: WEvent, w': WState, u: Tid)
    requires WStep(c, w, e) == Some(w') && !IsHydrateEvent(e) && Clean(w, e) && !Hanging.Restarted(w, w')
    ensures !OwnFailure(w, w', u)
  {
    if e.Answer? || e.ReadGzip? || e.ReadPlain? {
      Downloads.ServeMoves(c, w, e, w');
      if u == e.t { ServeIsClean(c, w, e, w'); } else { OthersAreClean(w, w', e.t, u); }
    } else {
      EarlyIsClean(c, w, e, w', u);
    }
  }

  // --- ... and nobody loses hope ---

  lemma BytesDecode(c: Codecs, w: WState, t: Tid)
    requires c.Lawful() && WInv(c, w) && c.NoCollision(w.origin.seen) && CTaskOk(w, t) && w.Task(t).Decoding?
    ensures c.decode(w.Task(t).bytes).Some?
  {
    assert TaskOk(c, w.origin.seen, w.resolver.Pos(t), w.Task(t));
    var id, o := w.Task(t).req.manifestID, w.origin;
    ManifestIsGenuine(c, o, id);
    Deployment.PublishedIsComplete(c, o, id);
    assert w.Task(t).bytes == o.manifests[id];
  }

  lemma CleanLoadKeepsHope(c: Codecs, w: WState, e: WEvent, w': WState, t: Tid, req: Request)
    requires c.Lawful() && WInv(c, w) && c.NoCollision(w.origin.seen) && CTaskOk(w, t)
    requires LoadStep(c, w, e) == Some(w') && Clean(w, e) && IsLoadEvent(e) && !Hopeless(w, t, req)
    ensures !Hopeless(w', t, req)
  {
    if e.t == t {
      if e.Decode? && w.Task(t).Decoding? { BytesDecode(c, w, t); }
      OwnCleanLoad(c, w, e, w', req);
    } else {
      OthersLoad(c, w, e, w', t);
      if Hopeless(w', t, req) { LoadMakesHopeless(c, w, e, w', t, req); }
    }
  }

  lemma OwnCleanLoad(c: Codecs, w: WState, e: WEvent, w': WState, req: Request)
    requires LoadStep(c, w, e) == Some(w') && Clean(w, e) && IsLoadEvent(e) && CTaskOk(w, e.t)
    requires e.Decode? && w.Task(e.t).Decoding? ==> c.decode(w.Task(e.t).bytes).Some?
    ensures !Hopeless(w', e.t, req)
  {
  }

  lemma OthersLoad(c: Codecs, w: WState, e: WEvent, w': WState, t: Tid)
    requires LoadStep(c, w, e) == Some(w') && e.t != t
    ensures w'.Task(t) == w.Task(t)
  {
  }

  lemma CleanKeepsHope(c: Codecs, w: WState, e: WEvent, w': WState, t: Tid, req: Request)
    requires c.Lawful() && WInv(c, w) && c.NoCollision(w.origin.seen) && CTaskOk(w, t)
    requires WStep(c, w, e) == Some(w') && Clean(w, e) && !Hopeless(w, t, req)
    ensures !Hopeless(w', t, req)
  {
    if IsLoadEvent(e) {
      CleanLoadKeepsHope(c, w, e, w', t, req);
    } else if Hopeless(w', t, req) {
      OnlyLoadsTakeHope(c, w, e, w', t, req);
    }
  }

  // --- requests stay what they are ---

  /** The request of `u` is the one it had, or has just come. */
  predicate SameRequest(w: WState, e: WEvent, w': WState, u: Tid) {
    || w'.Task(u).NoTask?
    || (!w.Task(u).NoTask? && w'.Task(u).req == w.Task(u).req)
    || (e.Ask? && e.t == u && w'.Task(u).req == e.req)
  }

  lemma LoadSameRequest(c: Codecs, w: WState, e: WEvent, w': WState, u: Tid)
    requires LoadStep(c, w, e) == Some(w')
    ensures SameRequest(w, e, w', u)
  {
  }

  lemma AnswerSameRequest(w: WState, e: WEvent, w': WState, u: Tid)
    requires e.Answer? && AnswerStep(w, e.t) == Some(w')
    ensures SameRequest(w, e, w', u)
  {
  }

  lemma HydrateSameRequest(c: Codecs, w: WState, e: WEvent, w': WState, u: Tid)
    requires HydrateStep(c, w, e) == Some(w')
    ensures SameRequest(w, e, w', u)
  {
  }

  lemma RequestStays(c: Codecs, w: WState, e: WEvent, w': WState, u: Tid)
    requires WStep(c, w, e) == Some(w')
    ensures SameRequest(w, e, w', u)
  {
    if IsLoadEvent(e) {
      LoadSameRequest(c, w, e, w', u);
    } else if IsHydrateEvent(e) {
      HydrateSameRequest(c, w, e, w', u);
    } else if e.Answer? {
      AnswerSameRequest(w, e, w', u);
    } else if e.ReadGzip? || e.ReadPlain? {
      ReadSameRequest(c, w, e, w', u);
    }
  }

  lemma ReadSameRequest(c: Codecs, w: WState, e: WEvent, w': WState, u: Tid)
    requires ServeStep(c, w, e) == Some(w') && (e.ReadGzip? || e.ReadPlain?)
    ensures SameRequest(w, e, w', u)
  {
  }

  lemma OriginGrows(c: Codecs, w: WState, e: WEvent, w': WState)
    requires WStep(c, w, e) == Some(w')
    ensures w.origin.manifests.Keys <= w'.origin.manifests.Keys && w.origin.seen <= w'.origin.seen
  {
    if e.Deploy? {
      Deployment.StepGrows(c, w.deploys[e.n], w.origin, e.e);
    } else {
      OriginStays(c, w, e, w');
    }
  }

  lemma OriginStays(c: Codecs, w: WState, e: WEvent, w': WState)
    requires WStep(c, w, e) == Some(w') && !e.Deploy?
    ensures w'.origin == w.origin
  {
    if e.Answer? {
      AnswerKeepsOrigin(w, e.t, w');
    } else if IsHydrateEvent(e) {
      HydrateKeepsOrigin(c, w, e, w');
    }
  }

  lemma HydrateKeepsOrigin(c: Codecs, w: WState, e: WEvent, w': WState)
    requires HydrateStep(c, w, e) == Some(w')
    ensures w'.origin == w.origin
  {
  }

  lemma AnswerKeepsOrigin(w: WState, t: Tid, w': WState)
    requires AnswerStep(w, t) == Some(w')
    ensures w'.origin == w.origin
  {
  }

  lemma {:induction false} SeenGrows(c: Codecs, r: seq<WState>, i: nat, j: nat)
    requires IsWRun(c, r) && i <= j < |r|
    ensures r[i].origin.seen <= r[j].origin.seen
    decreases j
  {
    if i < j {
      SeenGrows(c, r, i, j - 1);
      assert WNextAt(c, r, j - 1);
      var e :| WStep(c, r[j - 1], e) == Some(r[j]);
      OriginGrows(c, r[j - 1], e, r[j]);
    }
  }

  lemma TaskStaysClean(c: Codecs, w: WState, e: WEvent, w': WState, t: Tid)
    requires c.Lawful() && WInv(c, w) && c.NoCollision(w.origin.seen) && CTaskOk(w, t)
    requires WStep(c, w, e) == Some(w') && Clean(w, e)
    ensures CTaskOk(w', t)
  {
    RequestStays(c, w, e, w', t);
    OriginGrows(c, w, e, w');
    if !w'.Task(t).NoTask? {
      CleanKeepsHope(c, w, e, w', t, w'.Task(t).req);
    }
  }

  lemma NoFailures(w: WState, w': WState)
    requires forall u :: !DownloadFails(w, w', u)
    ensures FailedNow(w, w') == {}
  {
    forall id
      ensures id !in FailedNow(w, w')
    {
      if id in FailedNow(w, w') {
        FailedNowMeans(w, w', id);
      }
    }
  }

  lemma CleanKeepsCInv(c: Codecs, w: WState, w': WState)
    requires c.Lawful() && WInv(c, w) && c.NoCollision(w.origin.seen) && CInv(w) && CleanNext(c, w, w')
    requires HInv(w.hydration) && Downloads.AllInStep(w) && !Hanging.Restarted(w, w')
    ensures CInv(w')
  {
    var e :| Clean(w, e) && WStep(c, w, e) == Some(w');
    EveryoneFinds(c, w);
    forall u
      ensures !OwnFailure(w, w', u) && !DownloadFails(w, w', u)
    {
      StepIsClean(c, w, e, w', u);
    }
    NoFailures(w, w');
    StepKeepsFine(c, w, e, w', {}, {}, {}, {});
    forall t
      ensures CTaskOk(w', t)
    {
      assert CTaskOk(w, t);
      TaskStaysClean(c, w, e, w', t);
    }
  }

  lemma FewerCollide(c: Codecs, seen: set<Bytes>, seen': set<Bytes>)
    requires c.NoCollision(seen') && seen <= seen'
    ensures c.NoCollision(seen)
  {
  }

  lemma NoCollisionBefore(c: Codecs, r: seq<WState>, i: nat, j: nat)
    requires IsWRun(c, r) && i <= j < |r| && c.NoCollision(r[j].origin.seen)
    ensures c.NoCollision(r[i].origin.seen)
  {
    SeenGrows(c, r, i, j);
    FewerCollide(c, r[i].origin.seen, r[j].origin.seen);
  }

  lemma FreshIsClean(w: WState)
    requires w.tasks == map[] && w.hydration == HStart()
    ensures CInv(w)
  {
    FreshIsFine(w, {}, {});
  }

  lemma {:induction false} AlwaysClean(c: Codecs, r: seq<WState>, i: nat)
    requires c.Lawful() && IsCleanRun(c, r) && i < |r| && c.NoCollision(r[i].origin.seen)
    ensures CInv(r[i])
  {
    CleanIsRun(c, r);
    if i == 0 || Hanging.Restarted(r[i - 1], r[i]) {
      FreshIsClean(r[i]);
    } else {
      NoCollisionBefore(c, r, i - 1, i);
      AlwaysClean(c, r, i - 1);
      WRunKeepsInv(c, r, i - 1);
      LockAlwaysOk(c, r, i - 1);
      assert CleanNextAt(c, r, i - 1);
      CleanKeepsCInv(c, r[i - 1], r[i]);
    }
  }

  lemma AnsweredCleanly(c: Codecs, w: WState, w': WState, t: Tid)
    requires c.Lawful() && WInv(c, w) && c.NoCollision(w.origin.seen) && CInv(w) && CleanNext(c, w, w')
    requires Answered(w, w', t, |w.log|)
    ensures !w'.log[|w.log|].reply.ServerError? && !w'.log[|w.log|].reply.NoReply?
  {
    var e :| Clean(w, e) && WStep(c, w, e) == Some(w');
    assert CTaskOk(w, t) && TaskFine(w, {}, {}, t);
    OnlyMover(c, w, e, w', t);
    if w'.log[|w.log|].reply.ServerError? {
      ErrorIsHopeless(c, w, e, w', t);
    }
    if w'.log[|w.log|].reply.NoReply? {
      StepExcuse(c, w, e, w', {}, {});
      NoExcuse(c, w, e, w', t);
    }
  }

  lemma NoExcuse(c: Codecs, w: WState, e: WEvent, w': WState, t: Tid)
    requires c.Lawful() && WInv(c, w) && c.NoCollision(w.origin.seen) && CInv(w)
    requires WStep(c, w, e) == Some(w') && Clean(w, e) && Answered(w, w', t, |w.log|)
    ensures !Excuse(w, w', t, {}, {})
  {
    OnlyMover(c, w, e, w', t);
    EveryoneFinds(c, w);
    StepIsClean(c, w, e, w', t);
  }

  /** If nothing fails and only published sites are asked for, every answer is the page, 304, or 404 where
      the site has no such page, however requests, deployments and restarts are interleaved: nobody is
      turned away for having waited for somebody else. (Requests may hang.) */
  lemma FaultlessIsAnswered(c: Codecs, r: seq<WState>, i: nat, k: nat)
    requires c.Lawful() && IsCleanRun(c, r) && i < |r| && c.NoCollision(r[i].origin.seen) && k < |r[i].log|
    ensures r[i].log[k].reply.Full? || r[i].log[k].reply.NotModified? || r[i].log[k].reply.NotFound?
  {
    CleanIsRun(c, r);
    var a, t := MadeAt(c, r, i, k);
    NoCollisionBefore(c, r, a, i);
    AlwaysClean(c, r, a);
    WRunKeepsInv(c, r, a);
    assert CleanNextAt(c, r, a);
    AnsweredCleanly(c, r[a], r[a + 1], t);
  }
}
