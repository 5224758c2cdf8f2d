/** Sites that are cached, in the whole system: they are served whether or not the origin can be reached,
    and from the gzipped cache where that has the file. */
module Cached {
  import opened Wrappers
  import opened ObjectIDs
  import opened MutexMaps
  import opened Resolver
  import opened Content
  import opened Serving
  import opened Pipe
  import opened Filling
  import opened World
  import opened Answers
  import opened Faultless
  import Downloads

  // --- what a full answer is made of ---

  /** From the gzipped cache: as it is stored if the header names gzip, else decompressed. From the other
      cache: as it is stored. Always under the ETag and the status that go with it. */
  ghost predicate IsMadeOf(c: Codecs, w: WState, t: Tid, reply: Reply)
    requires w.Task(t).TryGzip? || w.Task(t).TryPlain?
  {
    var id, status := w.Task(t).choice.file.contentID, w.Task(t).choice.status;
    if w.Task(t).TryGzip? then
      && id in w.gzipped
      && if AcceptsGzip(w.Task(t).req) then reply == Full(status, ETagGZipped(id), true, w.gzipped[id])
         else c.gunzip(w.gzipped[id]).Some? && reply == Full(status, ETagUncompressed(id), false, c.gunzip(w.gzipped[id]).value)
    else id in w.plain && reply == Full(status, ETagUncompressed(id), false, w.plain[id])
  }

  lemma FullStep(c: Codecs, w: WState, e: WEvent, w': WState)
    requires WStep(c, w, e) == Some(w') && IsAnswerEvent(e) && |w'.log| > |w.log| && w'.log[|w.log|].reply.Full?
    ensures (w.Task(e.t).TryGzip? || w.Task(e.t).TryPlain?) && IsMadeOf(c, w, e.t, w'.log[|w.log|].reply)
  {
    match e
    case Answer(t) => AnswerIsNotFull(w, t, w');
    case ReadGzip(t, fault) => FullFromGzip(c, w, t, fault);
    case ReadPlain(t, fault) => FullFromPlain(c, w, t, fault, w');
    case AfterRelease(t) =>
  }

  lemma AnswerIsNotFull(w: WState, t: Tid, w': WState)
    requires AnswerStep(w, t) == Some(w') && |w'.log| > |w.log|
    ensures !w'.log[|w.log|].reply.Full?
  {
  }

  lemma FullFromGzip(c: Codecs, w: WState, t: Tid, fault: bool)
    requires w.Task(t).TryGzip? && |ReadGzipStep(c, w, t, fault).log| > |w.log|
    requires ReadGzipStep(c, w, t, fault).log[|w.log|].reply.Full?
    ensures IsMadeOf(c, w, t, ReadGzipStep(c, w, t, fault).log[|w.log|].reply)
  {
    var TryGzip(req, table, choice, again) := w.Task(t);
    FromGzipIff(c, req, choice, w.gzipped[choice.file.contentID]);
  }

  lemma FullFromPlain(c: Codecs, w: WState, t: Tid, fault: bool, w': WState)
    requires w.Task(t).TryPlain? && ReadPlainStep(w, t, fault) == Some(w')
    requires |w'.log| > |w.log| && w'.log[|w.log|].reply.Full?
    ensures IsMadeOf(c, w, t, w'.log[|w.log|].reply)
  {
  }

  /** Every full answer ever sent was made in that way from what a cache held at that moment. */
  lemma FullIsMadeOf(c: Codecs, r: seq<WState>, i: nat, k: nat) returns (a: nat, t: Tid)
    requires IsWRun(c, r) && i < |r| && k < |r[i].log| && r[i].log[k].reply.Full?
    ensures a < i && AnsweredAt(r, a, t, k) && r[a].Task(t).req == r[i].log[k].req
    ensures (r[a].Task(t).TryGzip? || r[a].Task(t).TryPlain?) && IsMadeOf(c, r[a], t, r[i].log[k].reply)
  {
    a, t := MadeAt(c, r, i, k);
    assert WNextAt(c, r, a);
    var e :| WStep(c, r[a], e) == Some(r[a + 1]);
    OnlyMover(c, r[a], e, r[a + 1], t);
    FullStep(c, r[a], e, r[a + 1]);
  }

  lemma LeavesGzip(c: Codecs, w: WState, e: WEvent, w': WState, t: Tid)
    requires WStep(c, w, e) == Some(w') && Clean(w, e) && w'.Task(t).TryPlain? && w.Task(t) != w'.Task(t)
    ensures w.Task(t).TryGzip? && w.Task(t).choice == w'.Task(t).choice && w'.Task(t).choice.file.contentID !in w.gzipped
  {
    if IsHydrateEvent(e) {
      HydrateLeavesGzip(c, w, e, w', t);
    } else if e.Answer? {
      AnswerLeavesGzip(w, e.t, w', t);
    } else if e.Launch? || e.Deploy? || e.Ask? || e.Resolve? || IsLoadEvent(e) {
      EarlyMoves(c, w, e, w');
    } else if !e.Restart? {
      ReadLeavesGzip(c, w, e, w', t);
    }
  }

  lemma ReadLeavesGzip(c: Codecs, w: WState, e: WEvent, w': WState, t: Tid)
    requires ServeStep(c, w, e) == Some(w') && (e.ReadGzip? || e.ReadPlain?) && Clean(w, e)
    requires w'.Task(t).TryPlain? && w.Task(t) != w'.Task(t)
    ensures w.Task(t).TryGzip? && w.Task(t).choice == w'.Task(t).choice && w'.Task(t).choice.file.contentID !in w.gzipped
  {
  }

  lemma HydrateLeavesGzip(c: Codecs, w: WState, e: WEvent, w': WState, t: Tid)
    requires HydrateStep(c, w, e) == Some(w') && w'.Task(t).TryPlain?
    ensures w.Task(t) == w'.Task(t)
  {
  }

  lemma AnswerLeavesGzip(w: WState, a: Tid, w': WState, t: Tid)
    requires AnswerStep(w, a) == Some(w') && w'.Task(t).TryPlain?
    ensures w.Task(t) == w'.Task(t)
  {
  }

  /** Where nothing fails, a request looks into the uncompressed cache only if the gzipped one did not
      have its file. */
  lemma {:induction false} GzipComesFirst(c: Codecs, r: seq<WState>, i: nat, t: Tid) returns (j: nat)
    requires IsCleanRun(c, r) && i < |r| && r[i].Task(t).TryPlain?
    ensures j < i && r[j].Task(t).TryGzip? && r[j].Task(t).choice == r[i].Task(t).choice
    ensures r[i].Task(t).choice.file.contentID !in r[j].gzipped
    ensures forall m :: j < m <= i ==> r[m].Task(t) == r[i].Task(t)
  {
    assert CleanNextAt(c, r, i - 1);
    if r[i - 1].Task(t) == r[i].Task(t) {
      j := GzipComesFirst(c, r, i - 1, t);
    } else {
      j := i - 1;
      var e :| Clean(r[i - 1], e) && WStep(c, r[i - 1], e) == Some(r[i]);
      LeavesGzip(c, r[i - 1], e, r[i], t);
    }
  }

  // --- what gets into the caches, and stays there ---

  lemma {:induction false} CachedForEver(c: Codecs, r: seq<WState>, j: nat, i: nat)
    requires IsWRun(c, r) && j <= i < |r|
    ensures r[j].gzipped.Keys <= r[i].gzipped.Keys && r[j].plain.Keys <= r[i].plain.Keys
    decreases i
  {
    if j < i {
      CachedForEver(c, r, j, i - 1);
      assert WNextAt(c, r, i - 1);
      var e :| WStep(c, r[i - 1], e) == Some(r[i]);
      CachesGrow(c, r[i - 1], e, r[i]);
    }
  }

  /** A manifest that was loaded from the origin is cached from then on, across restarts, if the insertion
      worked. */
  lemma LoadedStaysCached(c: Codecs, r: seq<WState>, j: nat, i: nat, t: Tid, how: Write)
    requires IsWRun(c, r) && j < i < |r| && how != Nothing && r[j].Task(t).LoadIntoCache?
    requires WStep(c, r[j], ManifestToCache(t, how)) == Some(r[j + 1])
    ensures r[j].Task(t).req.manifestID in r[i].plain
  {
    CachedForEver(c, r, j + 1, i);
  }

  lemma FillStays(c: Codecs, w: WState, t: Tid, insert: InsertFault, supply: Supply, w': WState)
    requires w.Task(t).Fill? && FillStep(c, w, t, insert, supply) == Some(w') && w'.Task(t).EndHydrate? && w'.Task(t).ok
    ensures var id := w.Task(t).choice.file.contentID; id in w'.gzipped || id in w'.plain
  {
    var Fill(req, table, choice, content) := w.Task(t);
    SucceedsIff(c, w.gzipped, w.plain, choice.file, content, insert, supply);
  }

  /** And so is a file whose download succeeded. */
  lemma FilledStaysCached(c: Codecs, r: seq<WState>, j: nat, i: nat, t: Tid, insert: InsertFault, supply: Supply)
    requires IsWRun(c, r) && j < i < |r| && r[j].Task(t).Fill? && r[j + 1].Task(t).EndHydrate? && r[j + 1].Task(t).ok
    requires WStep(c, r[j], FillCache(t, insert, supply)) == Some(r[j + 1])
    ensures var id := r[j].Task(t).choice.file.contentID; id in r[i].gzipped || id in r[i].plain
  {
    FillStays(c, r[j], t, insert, supply, r[j + 1]);
    CachedForEver(c, r, j + 1, i);
  }

  // --- cached sites do not need the origin ---

  /** The caches can be read by `t`. */
  predicate ReadsWork(e: WEvent, t: Tid) {
    match e
    case ManifestFromCache(u, fault) => u == t ==> !fault
    case ReadGzip(u, fault) => u == t ==> !fault
    case ReadPlain(u, fault) => u == t ==> !fault
    case _ => true
  }

  ghost predicate ReadingNext(c: Codecs, w: WState, w': WState, t: Tid) {
    exists e :: ReadsWork(e, t) && WStep(c, w, e) == Some(w')
  }

  ghost predicate ReadingNextAt(c: Codecs, r: seq<WState>, i: nat, t: Tid)
    requires i < |r| - 1
  {
    ReadingNext(c, r[i], r[i + 1], t)
  }

  /** Manifest and chosen file of a request are cached. */
  predicate IsCached(c: Codecs, w: WState, req: Request, v: Table, choice: Choice) {
    && req.manifestID in w.plain && c.decode(w.plain[req.manifestID]).Some?
    && v == Optimized(c.decode(w.plain[req.manifestID]).value.files)
    && Choose(v, req.path) == Some(choice)
    && (choice.file.contentID in w.gzipped || choice.file.contentID in w.plain)
  }

  /** The request is on its way to an answer from the caches. */
  predicate OnItsWay(w: WState, t: Tid, req: Request, v: Table, choice: Choice) {
    || (w.Task(t) == Resolving(req) && !Hopeless(w, t, req))
    || (w.Task(t).Decoding? && w.Task(t).req == req)
    || w.Task(t) == TryGzip(req, v, choice, false)
    || (w.Task(t) == TryPlain(req, v, choice, false) && choice.file.contentID in w.plain)
  }

  ghost predicate StillCached(c: Codecs, w: WState, req: Request, v: Table, choice: Choice) {
    && c.NoCollision(w.origin.seen) && TableOf(c, w.origin.seen, req.manifestID, v) && req.manifestID in w.plain
    && Choose(v, req.path) == Some(choice)
    && (choice.file.contentID in w.gzipped || choice.file.contentID in w.plain)
  }

  predicate IsGood(reply: Reply) {
    reply.Full? || reply.NotModified?
  }

  lemma CachedBytesDecode(c: Codecs, w: WState, t: Tid, req: Request, v: Table)
    requires WInv(c, w) && c.NoCollision(w.origin.seen) && TableOf(c, w.origin.seen, req.manifestID, v)
    requires w.Task(t).Decoding? && w.Task(t).req == req
    ensures c.decode(w.Task(t).bytes).Some?
  {
    assert TaskOk(c, w.origin.seen, w.resolver.Pos(t), w.Task(t));
    var b :| Genuine(c, w.origin.seen, req.manifestID, b) && c.decode(b).Some? && v == Optimized(c.decode(b).value.files);
    assert w.Task(t).bytes == b;
  }

  /** In this step `t` got its answer, and a good one; or it is still on its way, or was cut off. */
  predicate Onward(w: WState, w': WState, t: Tid, req: Request, v: Table, choice: Choice) {
    || OnItsWay(w', t, req, v, choice)
    || (w'.Task(t).NoTask? && (|w'.log| > |w.log| ==> IsGood(w'.log[|w.log|].reply)))
  }

  lemma AnswerOnward(c: Codecs, w: WState, t: Tid, w': WState, req: Request, v: Table, choice: Choice)
    requires WInv(c, w) && StillCached(c, w, req, v, choice) && OnItsWay(w, t, req, v, choice)
    requires AnswerStep(w, t) == Some(w')
    ensures Onward(w, w', t, req, v, choice)
  {
    assert TaskOk(c, w.origin.seen, w.resolver.Pos(t), w.Task(t)) && PosOk(w.resolver, t);
    var table := w.resolver.Pos(t).result.value;
    assert TableOf(c, w.origin.seen, req.manifestID, table);
    TableIsUnique(c, w.origin.seen, req.manifestID, table, v);
  }

  lemma LoadOnward(c: Codecs, w: WState, e: WEvent, w': WState, req: Request, v: Table, choice: Choice)
    requires LoadStep(c, w, e) == Some(w') && ReadsWork(e, e.t)
    requires WInv(c, w) && StillCached(c, w, req, v, choice) && OnItsWay(w, e.t, req, v, choice)
    ensures OnItsWay(w', e.t, req, v, choice)
  {
    if e.Decode? && w.Task(e.t).Decoding? { CachedBytesDecode(c, w, e.t, req, v); }
    OwnLoad(c, w, e, w', req, v, choice);
  }

  lemma OwnLoad(c: Codecs, w: WState, e: WEvent, w': WState, req: Request, v: Table, choice: Choice)
    requires LoadStep(c, w, e) == Some(w') && ReadsWork(e, e.t)
    requires OnItsWay(w, e.t, req, v, choice) && req.manifestID in w.plain
    requires e.Decode? && w.Task(e.t).Decoding? ==> c.decode(w.Task(e.t).bytes).Some?
    ensures OnItsWay(w', e.t, req, v, choice)
  {
  }

  lemma ReadOnward(c: Codecs, w: WState, e: WEvent, w': WState, req: Request, v: Table, choice: Choice)
    requires ServeStep(c, w, e) == Some(w') && (e.ReadGzip? || e.ReadPlain?) && ReadsWork(e, e.t)
    requires WInv(c, w) && StillCached(c, w, req, v, choice) && OnItsWay(w, e.t, req, v, choice)
    ensures Onward(w, w', e.t, req, v, choice)
  {
    if e.ReadGzip? && |w'.log| > |w.log| { GzipReplies(c, w, e.t, e.fault); }
    ReadOn(c, w, e, w', req, v, choice);
  }

  lemma ReadOn(c: Codecs, w: WState, e: WEvent, w': WState, req: Request, v: Table, choice: Choice)
    requires ServeStep(c, w, e) == Some(w') && (e.ReadGzip? || e.ReadPlain?) && ReadsWork(e, e.t)
    requires OnItsWay(w, e.t, req, v, choice)
    requires choice.file.contentID in w.gzipped || choice.file.contentID in w.plain
    requires e.ReadGzip? && |w'.log| > |w.log| ==> w'.log[|w.log|].reply.Full?
    ensures Onward(w, w', e.t, req, v, choice)
  {
  }

  /** Nothing else is done by `t` on its way. */
  lemma OwnOnward(c: Codecs, w: WState, e: WEvent, w': WState, t: Tid, req: Request, v: Table, choice: Choice)
    requires WInv(c, w) && StillCached(c, w, req, v, choice) && OnItsWay(w, t, req, v, choice)
    requires WStep(c, w, e) == Some(w') && ReadsWork(e, t) && !e.Launch? && !e.Deploy? && !e.Restart? && e.t == t
    ensures Onward(w, w', t, req, v, choice)
  {
    if IsLoadEvent(e) {
      LoadOnward(c, w, e, w', req, v, choice);
    } else if e.Answer? {
      AnswerOnward(c, w, t, w', req, v, choice);
    } else if e.ReadGzip? || e.ReadPlain? {
      ReadOnward(c, w, e, w', req, v, choice);
    } else if e.Resolve? {
      ResolveOnward(w, t, w', req, v, choice);
    }
  }

  lemma ResolveOnward(w: WState, t: Tid, w': WState, req: Request, v: Table, choice: Choice)
    requires OnItsWay(w, t, req, v, choice) && w.Task(t).Resolving? && w.WithResolver(RStep(w.resolver, t, Go)) == Some(w')
    ensures OnItsWay(w', t, req, v, choice)
  {
    if Hopeless(w', t, req) {
      ResolvingLeavesHope(w, t, w', t, req);
    }
  }

  predicate IsOf(e: WEvent, t: Tid) {
    !e.Launch? && !e.Deploy? && !e.Restart? && e.t == t
  }

  /** A step of another request leaves a request where it is. */
  lemma OthersStay(c: Codecs, w: WState, e: WEvent, w': WState, t: Tid)
    requires WStep(c, w, e) == Some(w') && !e.Restart? && !IsOf(e, t)
    ensures w'.Task(t) == w.Task(t)
  {
    if IsHydrateEvent(e) {
      Downloads.HydrateMoves(c, w, e, w');
    } else if e.Answer? || e.ReadGzip? || e.ReadPlain? {
      Downloads.ServeMoves(c, w, e, w');
    } else if IsLoadEvent(e) {
      OthersLoad(c, w, e, w', t);
    }
  }

  lemma OthersOnward(c: Codecs, w: WState, e: WEvent, w': WState, t: Tid, req: Request, v: Table, choice: Choice)
    requires OnItsWay(w, t, req, v, choice) && WStep(c, w, e) == Some(w') && !e.Restart? && !IsOf(e, t)
    ensures OnItsWay(w', t, req, v, choice)
  {
    OthersStay(c, w, e, w', t);
    CachesGrow(c, w, e, w');
    if Hopeless(w', t, req) {
      BecomesHopeless(c, w, e, w', t, req);
    }
  }

  lemma CachedStays(c: Codecs, w: WState, e: WEvent, w': WState, req: Request, v: Table, choice: Choice)
    requires WStep(c, w, e) == Some(w') && StillCached(c, w, req, v, choice) && c.NoCollision(w'.origin.seen)
    ensures StillCached(c, w', req, v, choice)
  {
    CachesGrow(c, w, e, w');
    Faultless.OriginGrows(c, w, e, w');
    TableOfGrows(c, w.origin.seen, w'.origin.seen, req.manifestID, v);
  }

  lemma NextOnward(c: Codecs, w: WState, w': WState, t: Tid, req: Request, v: Table, choice: Choice)
    requires WInv(c, w) && StillCached(c, w, req, v, choice) && OnItsWay(w, t, req, v, choice)
    requires ReadingNext(c, w, w', t) && c.NoCollision(w'.origin.seen)
    ensures StillCached(c, w', req, v, choice)
    ensures !w'.Task(t).NoTask? ==> OnItsWay(w', t, req, v, choice)
    ensures Answered(w, w', t, |w.log|) ==> IsGood(w'.log[|w.log|].reply)
  {
    var e :| ReadsWork(e, t) && WStep(c, w, e) == Some(w');
    CachedStays(c, w, e, w', req, v, choice);
    StepOnward(c, w, e, w', t, req, v, choice);
  }

  lemma StepOnward(c: Codecs, w: WState, e: WEvent, w': WState, t: Tid, req: Request, v: Table, choice: Choice)
    requires WInv(c, w) && StillCached(c, w, req, v, choice) && OnItsWay(w, t, req, v, choice)
    requires WStep(c, w, e) == Some(w') && ReadsWork(e, t)
    ensures Onward(w, w', t, req, v, choice)
  {
    if IsOf(e, t) {
      OwnOnward(c, w, e, w', t, req, v, choice);
    } else if !e.Restart? {
      OthersOnward(c, w, e, w', t, req, v, choice);
    }
  }

  ghost predicate SameVisit(r: seq<WState>, a: nat, b: nat, t: Tid)
    requires a <= b < |r|
  {
    forall m :: a <= m <= b ==> !r[m].Task(t).NoTask?
  }

  ghost predicate Reading(c: Codecs, r: seq<WState>, a: nat, b: nat, t: Tid)
    requires a <= b < |r|
  {
    forall m :: a <= m < b ==> ReadingNextAt(c, r, m, t)
  }

  lemma CachedAtFirst(c: Codecs, w: WState, req: Request, v: Table, choice: Choice)
    requires WInv(c, w) && c.NoCollision(w.origin.seen) && IsCached(c, w, req, v, choice)
    ensures StillCached(c, w, req, v, choice)
  {
    assert Genuine(c, w.origin.seen, req.manifestID, w.plain[req.manifestID]);
  }

  lemma {:induction false} GoesOnItsWay(c: Codecs, r: seq<WState>, a: nat, b: nat, t: Tid, req: Request, v: Table, choice: Choice)
    requires c.Lawful() && IsWRun(c, r) && a <= b < |r| && SameVisit(r, a, b, t) && Reading(c, r, a, b, t)
    requires c.NoCollision(r[b].origin.seen) && IsCached(c, r[a], req, v, choice) && OnItsWay(r[a], t, req, v, choice)
    ensures StillCached(c, r[b], req, v, choice) && OnItsWay(r[b], t, req, v, choice)
    decreases b
  {
    if a == b {
      WRunKeepsInv(c, r, a);
      CachedAtFirst(c, r[a], req, v, choice);
    } else {
      NoCollisionBefore(c, r, b - 1, b);
      ShorterVisit(c, r, a, b, t);
      GoesOnItsWay(c, r, a, b - 1, t, req, v, choice);
      WRunKeepsInv(c, r, b - 1);
      NextOnward(c, r[b - 1], r[b], t, req, v, choice);
    }
  }

  lemma ShorterVisit(c: Codecs, r: seq<WState>, a: nat, b: nat, t: Tid)
    requires a < b < |r| && SameVisit(r, a, b, t) && Reading(c, r, a, b, t)
    ensures SameVisit(r, a, b - 1, t) && Reading(c, r, a, b - 1, t)
    ensures ReadingNext(c, r[b - 1], r[b], t) && !r[b].Task(t).NoTask?
  {
    assert ReadingNextAt(c, r, b - 1, t);
  }

  /** A request whose manifest and file are cached when it comes is answered with the page or 304, whatever
      happens to the origin meanwhile and whoever else is loading or downloading, as long as it can read
      the caches itself. */
  lemma CachedIsAnswered(c: Codecs, r: seq<WState>, a: nat, b: nat, t: Tid, req: Request, v: Table, choice: Choice, k: nat)
    requires c.Lawful() && IsWRun(c, r) && a <= b < |r| - 1 && c.NoCollision(r[b + 1].origin.seen)
    requires r[a].Task(t) == Resolving(req) && r[a].resolver.Pos(t) == Resolver.WantMu(req.manifestID)
    requires IsCached(c, r[a], req, v, choice)
    requires SameVisit(r, a, b, t) && Reading(c, r, a, b + 1, t) && AnsweredAt(r, b, t, k)
    ensures IsGood(r[b + 1].log[k].reply)
  {
    NoCollisionBefore(c, r, b, b + 1);
    assert Reading(c, r, a, b, t);
    GoesOnItsWay(c, r, a, b, t, req, v, choice);
    WRunKeepsInv(c, r, b);
    assert ReadingNextAt(c, r, b, t);
    NextOnward(c, r[b], r[b + 1], t, req, v, choice);
  }
}
