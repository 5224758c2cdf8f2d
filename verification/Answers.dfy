/** Why a request is not answered as it should be: of the whole system, with all its interleavings, every
    answer that is an error or is missing is traced to a failure, and without failures there is none. */
module Answers {
  import opened Wrappers
  import opened ObjectIDs
  import opened MutexMaps
  import opened Hydration
  import opened Resolver
  import opened Content
  import opened Serving
  import opened Pipe
  import opened Filling
  import opened World
  import Downloads
  import Hanging

  // --- when a record was made ---

  /** In this step, the request of `t` gets the `k`-th answer. */
  predicate Answered(w: WState, w': WState, t: Tid, k: nat) {
    && !w.Task(t).NoTask? && w'.Task(t).NoTask?
    && |w.log| == k && |w'.log| == k + 1 && w'.log[k].req == w.Task(t).req
  }

  predicate AnsweredAt(r: seq<WState>, a: nat, t: Tid, k: nat)
    requires a < |r| - 1
  {
    Answered(r[a], r[a + 1], t, k)
  }

  predicate IsAnswerEvent(e: WEvent) {
    e.Answer? || e.ReadGzip? || e.ReadPlain? || e.AfterRelease?
  }

  lemma LogStep(c: Codecs, w: WState, e: WEvent, w': WState)
    requires WStep(c, w, e) == Some(w')
    ensures w'.log == w.log || (IsAnswerEvent(e) && w.log <= w'.log && Answered(w, w', e.t, |w.log|))
  {
    if IsLoadEvent(e) {
      LoadKeepsLog(c, w, e, w');
    } else if IsHydrateEvent(e) {
      HydrateLogs(c, w, e, w');
    } else if e.Answer? {
      AnswerLogs(w, e.t, w');
    }
  }

  lemma HydrateLogs(c: Codecs, w: WState, e: WEvent, w': WState)
    requires HydrateStep(c, w, e) == Some(w')
    ensures w'.log == w.log || (e.AfterRelease? && w.log <= w'.log && Answered(w, w', e.t, |w.log|))
  {
  }

  lemma LoadKeepsLog(c: Codecs, w: WState, e: WEvent, w': WState)
    requires LoadStep(c, w, e) == Some(w')
    ensures w'.log == w.log
  {
  }

  lemma AnswerLogs(w: WState, t: Tid, w': WState)
    requires AnswerStep(w, t) == Some(w')
    ensures w'.log == w.log || (w.log <= w'.log && Answered(w, w', t, |w.log|))
  {
  }

  ghost predicate SomeoneAnswered(w: WState, w': WState) {
    exists t :: Answered(w, w', t, |w.log|)
  }

  lemma NextLogs(c: Codecs, w: WState, w': WState)
    requires WNext(c, w, w')
    ensures w.log <= w'.log && |w'.log| <= |w.log| + 1
    ensures |w'.log| > |w.log| ==> SomeoneAnswered(w, w')
  {
    var e :| WStep(c, w, e) == Some(w');
    LogStep(c, w, e, w');
  }

  /** Every record was made in one step, by the request that it is about. */
  lemma {:induction false} MadeAt(c: Codecs, r: seq<WState>, i: nat, k: nat) returns (a: nat, t: Tid)
    requires IsWRun(c, r) && i < |r| && k < |r[i].log|
    ensures a < i && AnsweredAt(r, a, t, k) && r[a + 1].log[k] == r[i].log[k]
  {
    LogBefore(c, r, i);
    if k < |r[i - 1].log| {
      a, t := MadeAt(c, r, i - 1, k);
    } else {
      a := i - 1;
      t := NewRecord(c, r, i);
    }
  }

  lemma LogBefore(c: Codecs, r: seq<WState>, i: nat)
    requires IsWRun(c, r) && i < |r| && r[i].log != []
    ensures i > 0 && r[i - 1].log <= r[i].log && |r[i].log| <= |r[i - 1].log| + 1
  {
    assert WNextAt(c, r, i - 1);
    NextLogs(c, r[i - 1], r[i]);
  }

  lemma NewRecord(c: Codecs, r: seq<WState>, i: nat) returns (t: Tid)
    requires IsWRun(c, r) && 0 < i < |r| && |r[i].log| == |r[i - 1].log| + 1
    ensures AnsweredAt(r, i - 1, t, |r[i - 1].log|)
  {
    assert WNextAt(c, r, i - 1);
    NextLogs(c, r[i - 1], r[i]);
    t :| Answered(r[i - 1], r[i], t, |r[i - 1].log|);
  }

  // --- server errors ---

  /** In this step, `t` fails to load the manifest: the origin fails or does not have it, or the bytes do
      not decode. */
  ghost predicate ManifestFails(c: Codecs, w: WState, t: Tid, w': WState) {
    || (w.Task(t).LoadFromOrigin? && exists fault ::
          (fault || w.Task(t).req.manifestID !in w.origin.manifests) && WStep(c, w, ManifestFromOrigin(t, fault)) == Some(w'))
    || (w.Task(t).Decoding? && c.decode(w.Task(t).bytes).None? && WStep(c, w, Decode(t)) == Some(w'))
  }

  ghost predicate ManifestFailsAt(c: Codecs, r: seq<WState>, j: nat, t: Tid)
    requires j < |r| - 1
  {
    ManifestFails(c, r[j], t, r[j + 1])
  }

  /** `t` is in resolveManifest for `req`, without hope of a manifest. */
  predicate Hopeless(w: WState, t: Tid, req: Request) {
    w.Task(t) == Resolving(req) && WithoutResult(w.resolver.Pos(t), req.manifestID)
  }

  lemma BecomesHopeless(c: Codecs, w: WState, e: WEvent, w': WState, t: Tid, req: Request)
    requires WStep(c, w, e) == Some(w') && Hopeless(w', t, req)
    ensures Hopeless(w, t, req) || (ManifestFails(c, w, t, w') && w.Task(t).req == req)
  {
    if IsLoadEvent(e) {
      LoadMakesHopeless(c, w, e, w', t, req);
    } else {
      OnlyLoadsTakeHope(c, w, e, w', t, req);
    }
  }

  lemma OnlyLoadsTakeHope(c: Codecs, w: WState, e: WEvent, w': WState, t: Tid, req: Request)
    requires WStep(c, w, e) == Some(w') && Hopeless(w', t, req) && !IsLoadEvent(e)
    ensures Hopeless(w, t, req)
  {
    if e.Resolve? {
      ResolvingLeavesHope(w, e.t, w', t, req);
    } else if e.Ask? {
      AskingLeavesHope(w, e.t, e.req, w', t, req);
    } else {
      OthersLeaveHope(c, w, e, w', t, req);
    }
  }

  lemma ResolvingLeavesHope(w: WState, u: Tid, w': WState, t: Tid, req: Request)
    requires w.Task(u).Resolving? && w.WithResolver(RStep(w.resolver, u, Go)) == Some(w') && Hopeless(w', t, req)
    ensures Hopeless(w, t, req)
  {
    if u == t {
      GoGivesResult(w.resolver, t, w'.resolver, req.manifestID);
    } else {
      OtherPositions(w.resolver, u, Go, w'.resolver, t);
    }
  }

  lemma AskingLeavesHope(w: WState, u: Tid, asked: Request, w': WState, t: Tid, req: Request)
    requires w.Task(u).NoTask? && Hopeless(w', t, req)
    requires w.Do(u, Resolving(asked)).WithResolver(RStep(w.resolver, u, Enter(asked.manifestID))) == Some(w')
    ensures Hopeless(w, t, req)
  {
    OtherPositions(w.resolver, u, Enter(asked.manifestID), w'.resolver, t);
  }

  lemma OtherPositions(s: RState<Table>, u: Tid, m: Move<Table>, s': RState<Table>, t: Tid)
    requires RStep(s, u, m) == Some(s')
    ensures u != t ==> s'.Pos(t) == s.Pos(t)
  {
  }

  lemma LoadMakesHopeless(c: Codecs, w: WState, e: WEvent, w': WState, t: Tid, req: Request)
    requires LoadStep(c, w, e) == Some(w') && Hopeless(w', t, req) && IsLoadEvent(e)
    ensures Hopeless(w, t, req) || (ManifestFails(c, w, t, w') && w.Task(t).req == req)
  {
    match e
    case ManifestFromOrigin(_, _) => OriginMakesHopeless(c, w, e, w', t, req);
    case Decode(_) => DecodeMakesHopeless(c, w, e, w', t, req);
    case _ =>
  }

  lemma OriginMakesHopeless(c: Codecs, w: WState, e: WEvent, w': WState, t: Tid, req: Request)
    requires LoadStep(c, w, e) == Some(w') && Hopeless(w', t, req) && e.ManifestFromOrigin?
    ensures Hopeless(w, t, req) || (ManifestFails(c, w, t, w') && w.Task(t).req == req)
  {
    if e.t == t {
      assert WStep(c, w, ManifestFromOrigin(t, e.fault)) == Some(w');
    }
  }

  lemma DecodeMakesHopeless(c: Codecs, w: WState, e: WEvent, w': WState, t: Tid, req: Request)
    requires LoadStep(c, w, e) == Some(w') && Hopeless(w', t, req) && e.Decode?
    ensures Hopeless(w, t, req) || (ManifestFails(c, w, t, w') && w.Task(t).req == req)
  {
  }

  lemma OthersLeaveHope(c: Codecs, w: WState, e: WEvent, w': WState, t: Tid, req: Request)
    requires WStep(c, w, e) == Some(w') && Hopeless(w', t, req)
    requires !IsLoadEvent(e) && !e.Resolve? && !e.Ask?
    ensures Hopeless(w, t, req)
  {
    if IsHydrateEvent(e) {
      HydrateLeavesHope(c, w, e, w', t, req);
    } else if e.Answer? {
      AnswerLeavesHope(w, e.t, w', t, req);
    }
  }

  lemma HydrateLeavesHope(c: Codecs, w: WState, e: WEvent, w': WState, t: Tid, req: Request)
    requires HydrateStep(c, w, e) == Some(w') && Hopeless(w', t, req)
    ensures Hopeless(w, t, req)
  {
    HydrateKeepsResolver(c, w, e, w');
    Downloads.HydrateMoves(c, w, e, w');
  }

  lemma AnswerLeavesHope(w: WState, a: Tid, w': WState, t: Tid, req: Request)
    requires AnswerStep(w, a) == Some(w') && Hopeless(w', t, req)
    ensures Hopeless(w, t, req)
  {
  }

  lemma NextHopeless(c: Codecs, w: WState, w': WState, t: Tid, req: Request)
    requires WNext(c, w, w') && Hopeless(w', t, req)
    ensures Hopeless(w, t, req) || (ManifestFails(c, w, t, w') && w.Task(t).req == req)
  {
    var e :| WStep(c, w, e) == Some(w');
    BecomesHopeless(c, w, e, w', t, req);
  }

  lemma HopelessBefore(c: Codecs, r: seq<WState>, i: nat, t: Tid, req: Request)
    requires IsWRun(c, r) && i < |r| && Hopeless(r[i], t, req)
    ensures i > 0 && (Hopeless(r[i - 1], t, req) || (ManifestFailsAt(c, r, i - 1, t) && r[i - 1].Task(t).req == req))
  {
    assert WNextAt(c, r, i - 1);
    NextHopeless(c, r[i - 1], r[i], t, req);
  }

  lemma {:induction false} HopelessSince(c: Codecs, r: seq<WState>, i: nat, t: Tid, req: Request) returns (j: nat)
    requires IsWRun(c, r) && i < |r| && Hopeless(r[i], t, req)
    ensures j < i && ManifestFailsAt(c, r, j, t) && r[j].Task(t).req == req
    ensures forall m :: j < m <= i ==> Hopeless(r[m], t, req)
  {
    HopelessBefore(c, r, i, t, req);
    if Hopeless(r[i - 1], t, req) {
      j := HopelessSince(c, r, i - 1, t, req);
    } else {
      j := i - 1;
    }
  }

  lemma ErrorIsHopeless(c: Codecs, w: WState, e: WEvent, w': WState, t: Tid)
    requires WInv(c, w) && WStep(c, w, e) == Some(w') && Answered(w, w', t, |w.log|) && w'.log[|w.log|].reply.ServerError?
    ensures Hopeless(w, t, w.Task(t).req)
  {
    LogStep(c, w, e, w');
    OnlyMover(c, w, e, w', t);
    assert TaskOk(c, w.origin.seen, w.resolver.Pos(t), w.Task(t));
    if e.Answer? { AnswerError(w, t, w'); } else { ServeNoError(c, w, e, w'); }
  }

  lemma OnlyMover(c: Codecs, w: WState, e: WEvent, w': WState, t: Tid)
    requires WStep(c, w, e) == Some(w') && Answered(w, w', t, |w.log|)
    ensures IsAnswerEvent(e) && e.t == t
  {
    LogStep(c, w, e, w');
    if e.AfterRelease? {
      Downloads.HydrateMoves(c, w, e, w');
    } else if IsAnswerEvent(e) {
      Downloads.ServeMoves(c, w, e, w');
    }
  }

  lemma AnswerError(w: WState, t: Tid, w': WState)
    requires AnswerStep(w, t) == Some(w') && |w'.log| > |w.log| && w'.log[|w.log|].reply.ServerError?
    requires w.resolver.Pos(t).Returned? ==> w.resolver.Pos(t).id == w.Task(t).req.manifestID
    ensures Hopeless(w, t, w.Task(t).req)
  {
  }

  lemma ServeNoError(c: Codecs, w: WState, e: WEvent, w': WState)
    requires WStep(c, w, e) == Some(w') && (e.ReadGzip? || e.ReadPlain? || e.AfterRelease?) && |w'.log| > |w.log|
    ensures !w'.log[|w.log|].reply.ServerError?
  {
  }

  lemma NextError(c: Codecs, w: WState, w': WState, t: Tid)
    requires WInv(c, w) && WNext(c, w, w') && Answered(w, w', t, |w.log|) && w'.log[|w.log|].reply.ServerError?
    ensures Hopeless(w, t, w.Task(t).req)
  {
    var e :| WStep(c, w, e) == Some(w');
    ErrorIsHopeless(c, w, e, w', t);
  }

  /** An answer 500 is given only to a request whose own load of the manifest failed, and that has tried
      nothing since: nobody is refused a manifest because somebody else was loading it. */
  lemma ServerErrorBlame(c: Codecs, r: seq<WState>, i: nat, k: nat) returns (j: nat, a: nat, t: Tid)
    requires c.Lawful() && IsWRun(c, r) && i < |r| && k < |r[i].log| && r[i].log[k].reply.ServerError?
    ensures j < a < i && AnsweredAt(r, a, t, k) && ManifestFailsAt(c, r, j, t)
    ensures r[j].Task(t).req == r[i].log[k].req && forall m :: j < m <= a ==> r[m].Task(t) == Resolving(r[i].log[k].req)
  {
    a, t := MadeAt(c, r, i, k);
    WRunKeepsInv(c, r, a);
    assert WNextAt(c, r, a);
    NextError(c, r[a], r[a + 1], t);
    j := HopelessSince(c, r, a, t, r[a].Task(t).req);
  }

  // --- what a waiting request relies on ---

  /** Everyone who is past a download of a content, or past waiting for one, finds it in `got`. */
  predicate PosFine(h: HState, got: set<ObjectID>, t: Tid) {
    var p := h.Pos(t);
    p.Releasing? || p.Released? || p.Passing? || p.Waited? ==> p.id in got
  }

  predicate ChanFine(h: HState, got: set<ObjectID>, ch: Chan)
    requires ch < |h.mm.made|
  {
    Live(h.mm, h.mm.made[ch].key, ch) || h.mm.made[ch].key in got
  }

  ghost predicate HFine(h: HState, got: set<ObjectID>) {
    && (forall t :: PosFine(h, got, t))
    && (forall ch :: 0 <= ch < |h.mm.made| ==> ChanFine(h, got, ch))
  }

  /** The lock of a content is given up only by who was past its download. */
  lemma GivenUp(h: HState, t: Tid, m: HMove, h': HState, got: set<ObjectID>, ch: Chan)
    requires HInv(h) && HFine(h, got) && HStep(h, t, m) == Some(h')
    requires ch < |h.mm.made| && Live(h.mm, h.mm.made[ch].key, ch) && !Live(h'.mm, h.mm.made[ch].key, ch)
    ensures h.mm.made[ch].key in got
  {
    assert HPosOk(h, t) && PcOk(h.mm, t) && PosFine(h, got, t);
    HActs(h, t, m, h');
    var a := HAction(h, t, m);
    LockIsKept(h.mm, t, if a.Some? then a.value else Run, h'.mm, h.mm.made[ch].key, a.Some?);
  }

  lemma LockIsKept(mm: State<ObjectID>, t: Tid, a: Action<ObjectID>, mm': State<ObjectID>, id: ObjectID, some: bool)
    requires PcOk(mm, t) && if some then Step(mm, t, a) == Some(mm') else mm' == mm
    ensures id in mm.locks ==> (id in mm'.locks && mm'.locks[id] == mm.locks[id]) || mm.At(t) == InUnlock(id, mm.locks[id])
  {
  }

  lemma OwnPosFine(h: HState, t: Tid, m: HMove, h': HState, got: set<ObjectID>, got': set<ObjectID>)
    requires HInv(h) && HFine(h, got) && got <= got' && HStep(h, t, m) == Some(h')
    requires m.EndDownload? ==> h.Pos(t).id in got'
    ensures PosFine(h', got', t)
  {
    assert HPosOk(h, t) && PosFine(h, got, t);
    var p := h.Pos(t);
    if p.Awaiting? && h.mm.At(t).Done? {
      assert ChanFine(h, got, p.to);
    }
  }

  lemma MadeStays(h: HState, t: Tid, m: HMove, h': HState)
    requires HInv(h) && HStep(h, t, m) == Some(h')
    ensures h.mm.made <= h'.mm.made
    ensures forall ch :: |h.mm.made| <= ch < |h'.mm.made| ==> Live(h'.mm, h'.mm.made[ch].key, ch)
  {
    assert HPosOk(h, t);
    HActs(h, t, m, h');
    var a := HAction(h, t, m);
    if a.Some? { NewIsLive(h.mm, t, a.value, h'.mm); }
  }

  lemma NewIsLive(mm: State<ObjectID>, t: Tid, a: Action<ObjectID>, mm': State<ObjectID>)
    requires Step(mm, t, a) == Some(mm')
    ensures mm.made <= mm'.made
    ensures forall ch :: |mm.made| <= ch < |mm'.made| ==> Live(mm', mm'.made[ch].key, ch)
  {
  }

  lemma HStepKeepsFine(h: HState, t: Tid, m: HMove, h': HState, got: set<ObjectID>, got': set<ObjectID>)
    requires HInv(h) && HFine(h, got) && got <= got' && HStep(h, t, m) == Some(h')
    requires m.EndDownload? ==> h.Pos(t).id in got'
    ensures HFine(h', got')
  {
    MadeStays(h, t, m, h');
    forall u
      ensures PosFine(h', got', u)
    {
      if u == t {
        OwnPosFine(h, t, m, h', got, got');
      } else {
        OthersUntouched(h, t, m, h', u);
        assert PosFine(h, got, u);
      }
    }
    forall ch | 0 <= ch < |h'.mm.made|
      ensures ChanFine(h', got', ch)
    {
      if ch < |h.mm.made| && !Live(h'.mm, h.mm.made[ch].key, ch) {
        assert ChanFine(h, got, ch);
        if Live(h.mm, h.mm.made[ch].key, ch) { GivenUp(h, t, m, h', got, ch); }
      }
    }
  }

  lemma MoreIsFine(h: HState, got: set<ObjectID>, got': set<ObjectID>)
    requires HFine(h, got) && got <= got'
    ensures HFine(h, got')
  {
    forall t
      ensures PosFine(h, got', t)
    {
      assert PosFine(h, got, t);
    }
    forall ch | 0 <= ch < |h.mm.made|
      ensures ChanFine(h, got', ch)
    {
      assert ChanFine(h, got, ch);
    }
  }

  // --- failures ---

  /** In this step, the download of `t` fails. */
  predicate DownloadFails(w: WState, w': WState, t: Tid) {
    (w.Task(t).Hydrate? || w.Task(t).Fill?) && w'.Task(t).EndHydrate? && !w'.Task(t).ok
  }

  /** In this step, `t`, after a download, does not get to read what is in a cache. */
  predicate ReadFails(w: WState, w': WState, t: Tid) {
    || (w.Task(t).TryGzip? && w.Task(t).again && w.Task(t).choice.file.contentID in w.gzipped && w'.Task(t).TryPlain?)
    || (w.Task(t).TryPlain? && w.Task(t).again && w.Task(t).choice.file.contentID in w.plain && w'.Task(t).NoTask?
        && |w'.log| == |w.log| + 1 && w'.log[|w.log|].reply.NoReply?)
  }

  predicate OwnFailure(w: WState, w': WState, t: Tid) {
    DownloadFails(w, w', t) || ReadFails(w, w', t)
  }

  predicate OwnFailureAt(r: seq<WState>, j: nat, t: Tid)
    requires j < |r| - 1
  {
    OwnFailure(r[j], r[j + 1], t)
  }

  /** In this step, the download of `id` by somebody fails. */
  predicate IsFailedBy(w: WState, w': WState, u: Tid, id: ObjectID) {
    DownloadFails(w, w', u) && w.Task(u).choice.file.contentID == id
  }

  ghost predicate SomeDownloadFails(w: WState, w': WState, id: ObjectID) {
    exists u :: IsFailedBy(w, w', u, id)
  }

  ghost predicate SomeDownloadFailsAt(r: seq<WState>, j: nat, id: ObjectID)
    requires j < |r| - 1
  {
    SomeDownloadFails(r[j], r[j + 1], id)
  }

  /** The contents whose downloads failed in this step. */
  function FailedNow(w: WState, w': WState): (ids: set<ObjectID>)
    ensures forall u, id :: IsFailedBy(w, w', u, id) ==> id in ids
  {
    set u | u in w.tasks && DownloadFails(w, w', u) :: w.Task(u).choice.file.contentID
  }

  lemma FailedNowMeans(w: WState, w': WState, id: ObjectID)
    requires id in FailedNow(w, w')
    ensures SomeDownloadFails(w, w', id)
  {
    var u :| u in w.tasks && DownloadFails(w, w', u) && w.Task(u).choice.file.contentID == id;
    assert IsFailedBy(w, w', u, id);
  }

  /** The contents whose downloads failed in this process. */
  function Failed(r: seq<WState>, i: nat): set<ObjectID>
    requires i < |r|
  {
    if i == 0 || Hanging.Restarted(r[i - 1], r[i]) then {} else Failed(r, i - 1) + FailedNow(r[i - 1], r[i])
  }

  /** The requests that have had a failure of their own. */
  function Unlucky(r: seq<WState>, i: nat): set<Tid>
    requires i < |r|
  {
    if i == 0 then {}
    else set t | t in r[i].tasks && !r[i].Task(t).NoTask? && (t in Unlucky(r, i - 1) || OwnFailure(r[i - 1], r[i], t))
  }

  lemma {:induction false} FailedMeans(r: seq<WState>, i: nat, id: ObjectID) returns (j: nat)
    requires i < |r| && id in Failed(r, i)
    ensures j < i && SomeDownloadFailsAt(r, j, id) && Hanging.NoRestart(r, j, i)
  {
    if id in FailedNow(r[i - 1], r[i]) {
      FailedNowMeans(r[i - 1], r[i], id);
      j := i - 1;
    } else {
      j := FailedMeans(r, i - 1, id);
    }
  }

  lemma {:induction false} UnluckyMeans(r: seq<WState>, i: nat, t: Tid) returns (j: nat)
    requires i < |r| && t in Unlucky(r, i)
    ensures j < i && OwnFailureAt(r, j, t) && forall m :: j < m <= i ==> !r[m].Task(t).NoTask?
  {
    if OwnFailure(r[i - 1], r[i], t) {
      j := i - 1;
    } else {
      j := UnluckyMeans(r, i - 1, t);
    }
  }

  // --- what holds of every request, given the failures so far ---

  function Got(w: WState, failed: set<ObjectID>): set<ObjectID> {
    w.gzipped.Keys + w.plain.Keys + failed
  }

  predicate TaskFine(w: WState, failed: set<ObjectID>, unlucky: set<Tid>, t: Tid) {
    match w.Task(t)
    case TryGzip(_, _, choice, again) => again ==> choice.file.contentID in Got(w, failed)
    case TryPlain(_, _, choice, again) => again ==> choice.file.contentID in w.plain.Keys + failed || t in unlucky
    case EndHydrate(_, _, choice, ok) => if ok then choice.file.contentID in Got(w, failed) else t in unlucky
    case _ => true
  }

  ghost predicate AFine(w: WState, failed: set<ObjectID>, unlucky: set<Tid>) {
    && HFine(w.hydration, Got(w, failed))
    && forall t :: TaskFine(w, failed, unlucky, t)
  }

  /** The failures of a step are taken down. */
  ghost predicate Tracked(w: WState, w': WState, failed: set<ObjectID>, failed': set<ObjectID>, unlucky: set<Tid>, unlucky': set<Tid>) {
    && failed + FailedNow(w, w') <= failed'
    && forall t :: !w'.Task(t).NoTask? && (t in unlucky || OwnFailure(w, w', t)) ==> t in unlucky'
  }

  lemma CachesGrow(c: Codecs, w: WState, e: WEvent, w': WState)
    requires WStep(c, w, e) == Some(w')
    ensures w.gzipped.Keys <= w'.gzipped.Keys && w.plain.Keys <= w'.plain.Keys
  {
    if e.Answer? {
      AnswerKeepsCaches(w, e.t, w');
    } else if e.FillCache? {
      FillGrows(c, w, e, w');
    }
  }

  lemma AnswerKeepsCaches(w: WState, t: Tid, w': WState)
    requires AnswerStep(w, t) == Some(w')
    ensures w'.gzipped == w.gzipped && w'.plain == w.plain
  {
  }

  lemma FillGrows(c: Codecs, w: WState, e: WEvent, w': WState)
    requires e.FillCache? && w.Task(e.t).Fill? && FillStep(c, w, e.t, e.insert, e.supply) == Some(w')
    ensures w.gzipped.Keys <= w'.gzipped.Keys && w.plain.Keys <= w'.plain.Keys
  {
    var Fill(req, table, choice, content) := w.Task(e.t);
    FillAdds(c, w.gzipped, w.plain, choice.file, content, e.insert, e.supply);
  }

  /** Requests that a step does not move stay fine. */
  lemma UnmovedFine(w: WState, w': WState, failed: set<ObjectID>, failed': set<ObjectID>, unlucky: set<Tid>, unlucky': set<Tid>, t: Tid)
    requires TaskFine(w, failed, unlucky, t) && w'.Task(t) == w.Task(t) && Tracked(w, w', failed, failed', unlucky, unlucky')
    requires w.gzipped.Keys <= w'.gzipped.Keys && w.plain.Keys <= w'.plain.Keys
    ensures TaskFine(w', failed', unlucky', t)
  {
  }

  lemma GotGrows(w: WState, w': WState, failed: set<ObjectID>, failed': set<ObjectID>)
    requires failed <= failed' && w.gzipped.Keys <= w'.gzipped.Keys && w.plain.Keys <= w'.plain.Keys
    ensures Got(w, failed) <= Got(w', failed')
  {
  }

  // --- the steps of a download ---

  lemma AfterWaitFine(w: WState, t: Tid, w': WState, failed: set<ObjectID>, failed': set<ObjectID>, unlucky': set<Tid>)
    requires w.Task(t).Hydrate? && w.hydration.Pos(t).Waited? && AfterWaitStep(w, t) == Some(w')
    requires PosFine(w.hydration, Got(w, failed), t) && w.hydration.Pos(t).id == w.Task(t).choice.file.contentID
    requires failed <= failed'
    ensures TaskFine(w', failed', unlucky', t)
  {
  }

  lemma FetchFine(w: WState, t: Tid, fault: bool, w': WState, failed': set<ObjectID>, unlucky: set<Tid>, unlucky': set<Tid>, failed: set<ObjectID>)
    requires w.Task(t).Hydrate? && FetchStep(w, t, fault) == Some(w') && Tracked(w, w', failed, failed', unlucky, unlucky')
    ensures TaskFine(w', failed', unlucky', t)
    ensures w'.hydration != w.hydration ==> w.Task(t).choice.file.contentID in failed'
  {
    if w'.Task(t).EndHydrate? {
      assert IsFailedBy(w, w', t, w.Task(t).choice.file.contentID);
    }
  }

  lemma FillFine(c: Codecs, w: WState, t: Tid, insert: InsertFault, supply: Supply, w': WState, failed: set<ObjectID>, failed': set<ObjectID>,
                 unlucky: set<Tid>, unlucky': set<Tid>)
    requires w.Task(t).Fill? && FillStep(c, w, t, insert, supply) == Some(w') && Tracked(w, w', failed, failed', unlucky, unlucky')
    ensures TaskFine(w', failed', unlucky', t)
    ensures w'.Task(t).EndHydrate? ==> w.Task(t).choice.file.contentID in Got(w', failed')
  {
    var Fill(req, table, choice, content) := w.Task(t);
    SucceedsIff(c, w.gzipped, w.plain, choice.file, content, insert, supply);
    if w'.Task(t).EndHydrate? && !w'.Task(t).ok {
      assert IsFailedBy(w, w', t, choice.file.contentID);
    }
  }

  lemma AfterReleaseFine(w: WState, t: Tid, w': WState, failed: set<ObjectID>, failed': set<ObjectID>, unlucky: set<Tid>, unlucky': set<Tid>)
    requires w.Task(t).EndHydrate? && AfterReleaseStep(w, t) == Some(w') && TaskFine(w, failed, unlucky, t) && failed <= failed'
    ensures TaskFine(w', failed', unlucky', t)
  {
  }

  lemma MoverFine(c: Codecs, w: WState, e: WEvent, w': WState, failed: set<ObjectID>, failed': set<ObjectID>,
                  unlucky: set<Tid>, unlucky': set<Tid>)
    requires HydrateStep(c, w, e) == Some(w') && Tracked(w, w', failed, failed', unlucky, unlucky')
    requires TaskFine(w, failed, unlucky, e.t) && PosFine(w.hydration, Got(w, failed), e.t)
    requires Downloads.InStep(w.hydration.Pos(e.t), w.Task(e.t))
    requires w.gzipped.Keys <= w'.gzipped.Keys && w.plain.Keys <= w'.plain.Keys
    ensures TaskFine(w', failed', unlucky', e.t)
    ensures w'.hydration != w.hydration && Downloads.MoveOf(e, w').EndDownload? ==> w.hydration.Pos(e.t).id in Got(w', failed')
  {
    match e
    case FileLock(t) => UnmovedFine(w, w', failed, failed', unlucky, unlucky', t);
    case AfterWait(t) => AfterWaitFine(w, t, w', failed, failed', unlucky');
    case Fetch(t, fault) => FetchFine(w, t, fault, w', failed', unlucky, unlucky', failed);
    case FillCache(t, insert, supply) => FillFine(c, w, t, insert, supply, w', failed, failed', unlucky, unlucky');
    case AfterRelease(t) => AfterReleaseFine(w, t, w', failed, failed', unlucky, unlucky');
  }

  lemma HydrateKeepsFine(c: Codecs, w: WState, e: WEvent, w': WState, failed: set<ObjectID>, failed': set<ObjectID>,
                         unlucky: set<Tid>, unlucky': set<Tid>)
    requires HydrateStep(c, w, e) == Some(w') && Tracked(w, w', failed, failed', unlucky, unlucky')
    requires AFine(w, failed, unlucky) && HInv(w.hydration) && Downloads.AllInStep(w)
    requires w.gzipped.Keys <= w'.gzipped.Keys && w.plain.Keys <= w'.plain.Keys
    ensures AFine(w', failed', unlucky')
  {
    var t := e.t;
    assert TaskFine(w, failed, unlucky, t) && PosFine(w.hydration, Got(w, failed), t);
    assert Downloads.InStep(w.hydration.Pos(t), w.Task(t));
    Downloads.HydrateMoves(c, w, e, w');
    MoverFine(c, w, e, w', failed, failed', unlucky, unlucky');
    GotGrows(w, w', failed, failed');
    if w'.hydration == w.hydration {
      MoreIsFine(w.hydration, Got(w, failed), Got(w', failed'));
    } else {
      HStepKeepsFine(w.hydration, t, Downloads.MoveOf(e, w'), w'.hydration, Got(w, failed), Got(w', failed'));
    }
    OthersFine(w, w', t, failed, failed', unlucky, unlucky');
  }

  lemma OthersFine(w: WState, w': WState, t: Tid, failed: set<ObjectID>, failed': set<ObjectID>, unlucky: set<Tid>, unlucky': set<Tid>)
    requires AFine(w, failed, unlucky) && Tracked(w, w', failed, failed', unlucky, unlucky')
    requires w.gzipped.Keys <= w'.gzipped.Keys && w.plain.Keys <= w'.plain.Keys
    requires forall u :: u != t ==> w'.Task(u) == w.Task(u)
    requires TaskFine(w', failed', unlucky', t)
    ensures forall u :: TaskFine(w', failed', unlucky', u)
  {
    forall u
      ensures TaskFine(w', failed', unlucky', u)
    {
      if u != t {
        assert TaskFine(w, failed, unlucky, u);
        UnmovedFine(w, w', failed, failed', unlucky, unlucky', u);
      }
    }
  }

  // --- all other steps ---

  lemma ReadGzipFine(c: Codecs, w: WState, t: Tid, fault: bool, failed: set<ObjectID>, failed': set<ObjectID>,
                     unlucky: set<Tid>, unlucky': set<Tid>)
    requires w.Task(t).TryGzip? && TaskFine(w, failed, unlucky, t)
    requires Tracked(w, ReadGzipStep(c, w, t, fault), failed, failed', unlucky, unlucky')
    ensures TaskFine(ReadGzipStep(c, w, t, fault), failed', unlucky', t)
  {
    var w' := ReadGzipStep(c, w, t, fault);
    if w'.Task(t).TryPlain? && w.Task(t).again && w.Task(t).choice.file.contentID in w.gzipped {
      assert OwnFailure(w, w', t);
    }
  }

  lemma ServeMoverFine(c: Codecs, w: WState, e: WEvent, w': WState, failed: set<ObjectID>, failed': set<ObjectID>,
                       unlucky: set<Tid>, unlucky': set<Tid>)
    requires ServeStep(c, w, e) == Some(w') && TaskFine(w, failed, unlucky, e.t) && Tracked(w, w', failed, failed', unlucky, unlucky')
    ensures TaskFine(w', failed', unlucky', e.t)
  {
    match e
    case ReadGzip(t, fault) => ReadGzipFine(c, w, t, fault, failed, failed', unlucky, unlucky');
    case Answer(t) => AnswerMoverFine(w, t, w', failed', unlucky');
    case ReadPlain(_, _) =>
  }

  lemma AnswerMoverFine(w: WState, t: Tid, w': WState, failed': set<ObjectID>, unlucky': set<Tid>)
    requires AnswerStep(w, t) == Some(w')
    ensures TaskFine(w', failed', unlucky', t)
  {
  }

  lemma ServeKeepsFine(c: Codecs, w: WState, e: WEvent, w': WState, failed: set<ObjectID>, failed': set<ObjectID>,
                       unlucky: set<Tid>, unlucky': set<Tid>)
    requires ServeStep(c, w, e) == Some(w') && Tracked(w, w', failed, failed', unlucky, unlucky')
    requires AFine(w, failed, unlucky) && HInv(w.hydration)
    requires w.gzipped.Keys <= w'.gzipped.Keys && w.plain.Keys <= w'.plain.Keys
    ensures AFine(w', failed', unlucky')
  {
    var t := e.t;
    assert TaskFine(w, failed, unlucky, t);
    Downloads.ServeMoves(c, w, e, w');
    ServeMoverFine(c, w, e, w', failed, failed', unlucky, unlucky');
    GotGrows(w, w', failed, failed');
    if w'.hydration == w.hydration {
      MoreIsFine(w.hydration, Got(w, failed), Got(w', failed'));
    } else {
      HStepKeepsFine(w.hydration, t, Come(w.Task(t).choice.file.contentID), w'.hydration, Got(w, failed), Got(w', failed'));
    }
    OthersFine(w, w', t, failed, failed', unlucky, unlucky');
  }

  lemma EarlyKeepsFine(c: Codecs, w: WState, e: WEvent, w': WState, failed: set<ObjectID>, failed': set<ObjectID>,
                       unlucky: set<Tid>, unlucky': set<Tid>)
    requires WStep(c, w, e) == Some(w') && Tracked(w, w', failed, failed', unlucky, unlucky') && AFine(w, failed, unlucky)
    requires e.Launch? || e.Deploy? || e.Ask? || e.Resolve? || IsLoadEvent(e)
    requires w.gzipped.Keys <= w'.gzipped.Keys && w.plain.Keys <= w'.plain.Keys
    ensures AFine(w', failed', unlucky')
  {
    GotGrows(w, w', failed, failed');
    EarlyMoves(c, w, e, w');
    MoreIsFine(w.hydration, Got(w, failed), Got(w', failed'));
    forall u
      ensures TaskFine(w', failed', unlucky', u)
    {
      assert TaskFine(w, failed, unlucky, u);
      if w'.Task(u) == w.Task(u) {
        UnmovedFine(w, w', failed, failed', unlucky, unlucky', u);
      }
    }
  }

  /** Up to the answer of resolveManifest, no request looks for a file. */
  lemma EarlyMoves(c: Codecs, w: WState, e: WEvent, w': WState)
    requires WStep(c, w, e) == Some(w')
    requires e.Launch? || e.Deploy? || e.Ask? || e.Resolve? || IsLoadEvent(e)
    ensures w'.hydration == w.hydration
    ensures forall u :: w'.Task(u) == w.Task(u) || w'.Task(u).Resolving? || w'.Task(u).LoadFromOrigin?
                        || w'.Task(u).LoadIntoCache? || w'.Task(u).Decoding?
  {
    if IsLoadEvent(e) { LoadMoves(c, w, e, w'); }
  }

  lemma LoadMoves(c: Codecs, w: WState, e: WEvent, w': WState)
    requires LoadStep(c, w, e) == Some(w')
    ensures w'.hydration == w.hydration
    ensures forall u :: w'.Task(u) == w.Task(u) || w'.Task(u).Resolving? || w'.Task(u).LoadFromOrigin?
                        || w'.Task(u).LoadIntoCache? || w'.Task(u).Decoding?
  {
    match e {
      case ManifestFromCache(t, fault) => CacheLoadMoves(c, w, t, fault, w');
      case _ =>
    }
  }

  lemma CacheLoadMoves(c: Codecs, w: WState, t: Tid, fault: bool, w': WState)
    requires LoadStep(c, w, ManifestFromCache(t, fault)) == Some(w')
    ensures w'.hydration == w.hydration
    ensures forall u :: w'.Task(u) == w.Task(u) || w'.Task(u).Resolving? || w'.Task(u).LoadFromOrigin?
                        || w'.Task(u).LoadIntoCache? || w'.Task(u).Decoding?
  {
  }

  lemma FreshIsFine(w: WState, failed: set<ObjectID>, unlucky: set<Tid>)
    requires w.tasks == map[] && w.hydration == HStart()
    ensures AFine(w, failed, unlucky)
  {
  }

  lemma StepKeepsFine(c: Codecs, w: WState, e: WEvent, w': WState, failed: set<ObjectID>, failed': set<ObjectID>,
                      unlucky: set<Tid>, unlucky': set<Tid>)
    requires WStep(c, w, e) == Some(w') && !Hanging.Restarted(w, w') && Tracked(w, w', failed, failed', unlucky, unlucky')
    requires AFine(w, failed, unlucky) && HInv(w.hydration) && Downloads.AllInStep(w)
    ensures AFine(w', failed', unlucky')
  {
    CachesGrow(c, w, e, w');
    assert !e.Restart?;
    NoRestartKeepsFine(c, w, e, w', failed, failed', unlucky, unlucky');
  }

  lemma NoRestartKeepsFine(c: Codecs, w: WState, e: WEvent, w': WState, failed: set<ObjectID>, failed': set<ObjectID>,
                           unlucky: set<Tid>, unlucky': set<Tid>)
    requires WStep(c, w, e) == Some(w') && !e.Restart? && Tracked(w, w', failed, failed', unlucky, unlucky')
    requires AFine(w, failed, unlucky) && HInv(w.hydration) && Downloads.AllInStep(w)
    requires w.gzipped.Keys <= w'.gzipped.Keys && w.plain.Keys <= w'.plain.Keys
    ensures AFine(w', failed', unlucky')
  {
    if IsHydrateEvent(e) {
      HydrateKeepsFine(c, w, e, w', failed, failed', unlucky, unlucky');
    } else if e.Answer? || e.ReadGzip? || e.ReadPlain? {
      ServeKeepsFine(c, w, e, w', failed, failed', unlucky, unlucky');
    } else {
      EarlyKeepsFine(c, w, e, w', failed, failed', unlucky, unlucky');
    }
  }

  lemma NextKeepsFine(c: Codecs, w: WState, w': WState, failed: set<ObjectID>, failed': set<ObjectID>,
                      unlucky: set<Tid>, unlucky': set<Tid>)
    requires WNext(c, w, w') && !Hanging.Restarted(w, w') && Tracked(w, w', failed, failed', unlucky, unlucky')
    requires AFine(w, failed, unlucky) && HInv(w.hydration) && Downloads.AllInStep(w)
    ensures AFine(w', failed', unlucky')
  {
    var e :| WStep(c, w, e) == Some(w');
    StepKeepsFine(c, w, e, w', failed, failed', unlucky, unlucky');
  }

  lemma LockAlwaysOk(c: Codecs, r: seq<WState>, i: nat)
    requires IsWRun(c, r) && i < |r|
    ensures HInv(r[i].hydration) && Downloads.AllInStep(r[i])
  {
    Downloads.AlwaysInStep(c, r, i);
    var q := Downloads.HydrationRunInside(c, r, i);
    HRunKeepsInv(q, |q| - 1);
  }

  lemma {:induction false} AlwaysFine(c: Codecs, r: seq<WState>, i: nat)
    requires IsWRun(c, r) && i < |r|
    ensures AFine(r[i], Failed(r, i), Unlucky(r, i))
  {
    if i == 0 {
      FreshIsFine(r[0], Failed(r, 0), Unlucky(r, 0));
    } else if Hanging.Restarted(r[i - 1], r[i]) {
      FreshIsFine(r[i], Failed(r, i), Unlucky(r, i));
    } else {
      AlwaysFine(c, r, i - 1);
      LockAlwaysOk(c, r, i - 1);
      assert WNextAt(c, r, i - 1);
      NextKeepsFine(c, r[i - 1], r[i], Failed(r, i - 1), Failed(r, i), Unlucky(r, i - 1), Unlucky(r, i));
    }
  }

  // --- missing answers ---

  /** Why `t` goes without an answer in this step: a failure of its own, or one of the content's download. */
  ghost predicate Excuse(w: WState, w': WState, t: Tid, failed: set<ObjectID>, unlucky: set<Tid>) {
    || t in unlucky || OwnFailure(w, w', t)
    || (w.Task(t).TryPlain? && w.Task(t).again && w.Task(t).choice.file.contentID in failed)
  }

  lemma GzipReplies(c: Codecs, w: WState, t: Tid, fault: bool)
    requires WInv(c, w) && w.Task(t).TryGzip? && |ReadGzipStep(c, w, t, fault).log| > |w.log|
    ensures ReadGzipStep(c, w, t, fault).log[|w.log|].reply.Full?
  {
    var id := w.Task(t).choice.file.contentID;
    assert GenuineGzip(c, w.origin.seen, id, w.gzipped[id]);
  }

  lemma PlainExcuse(w: WState, t: Tid, fault: bool, w': WState, failed: set<ObjectID>, unlucky: set<Tid>)
    requires w.Task(t).TryPlain? && ReadPlainStep(w, t, fault) == Some(w') && TaskFine(w, failed, unlucky, t)
    requires |w'.log| > |w.log| && w'.log[|w.log|].reply.NoReply?
    ensures Excuse(w, w', t, failed, unlucky)
  {
  }

  lemma ReleaseExcuse(w: WState, t: Tid, w': WState, failed: set<ObjectID>, unlucky: set<Tid>)
    requires w.Task(t).EndHydrate? && AfterReleaseStep(w, t) == Some(w') && TaskFine(w, failed, unlucky, t)
    requires |w'.log| > |w.log|
    ensures Excuse(w, w', t, failed, unlucky)
  {
  }

  lemma AnswerIsAnswer(w: WState, t: Tid, w': WState)
    requires AnswerStep(w, t) == Some(w') && |w'.log| > |w.log|
    ensures !w'.log[|w.log|].reply.NoReply?
  {
  }

  lemma NextExcuse(c: Codecs, w: WState, w': WState, t: Tid, failed: set<ObjectID>, unlucky: set<Tid>)
    requires WInv(c, w) && WNext(c, w, w') && TaskFine(w, failed, unlucky, t)
    requires Answered(w, w', t, |w.log|) && w'.log[|w.log|].reply.NoReply?
    ensures Excuse(w, w', t, failed, unlucky)
  {
    var e :| WStep(c, w, e) == Some(w');
    OnlyMover(c, w, e, w', t);
    StepExcuse(c, w, e, w', failed, unlucky);
  }

  lemma StepExcuse(c: Codecs, w: WState, e: WEvent, w': WState, failed: set<ObjectID>, unlucky: set<Tid>)
    requires WInv(c, w) && WStep(c, w, e) == Some(w') && IsAnswerEvent(e) && TaskFine(w, failed, unlucky, e.t)
    requires |w'.log| > |w.log| && w'.log[|w.log|].reply.NoReply?
    ensures Excuse(w, w', e.t, failed, unlucky)
  {
    match e
    case Answer(t) => AnswerIsAnswer(w, t, w');
    case ReadGzip(t, fault) => GzipReplies(c, w, t, fault);
    case ReadPlain(t, fault) => PlainExcuse(w, t, fault, w', failed, unlucky);
    case AfterRelease(t) => ReleaseExcuse(w, t, w', failed, unlucky);
  }

  /** A failure that happened to this very request, in the course of its visit. */
  ghost predicate OwnFault(r: seq<WState>, a: nat, t: Tid)
    requires a < |r| - 1
  {
    exists j :: 0 <= j <= a && OwnFailureAt(r, j, t) && forall m :: j < m <= a ==> !r[m].Task(t).NoTask?
  }

  /** A download of the content failed before, in the same process. */
  ghost predicate DownloadFault(r: seq<WState>, a: nat, id: ObjectID)
    requires a < |r| - 1
  {
    exists j :: 0 <= j < a && SomeDownloadFailsAt(r, j, id) && Hanging.NoRestart(r, j, a)
  }

  /** A request goes without an answer only if its own download failed, or its second look into the caches
      failed to read what is there, or if it waited in vain: a download of its content failed before. */
  lemma NoReplyBlame(c: Codecs, r: seq<WState>, i: nat, k: nat) returns (a: nat, t: Tid)
    requires c.Lawful() && IsWRun(c, r) && i < |r| && k < |r[i].log| && r[i].log[k].reply.NoReply?
    ensures a < i && AnsweredAt(r, a, t, k) && r[a].Task(t).req == r[i].log[k].req
    ensures OwnFault(r, a, t) || (r[a].Task(t).TryPlain? && DownloadFault(r, a, r[a].Task(t).choice.file.contentID))
  {
    a, t := MadeAt(c, r, i, k);
    WRunKeepsInv(c, r, a);
    AlwaysFine(c, r, a);
    assert WNextAt(c, r, a);
    NextExcuse(c, r[a], r[a + 1], t, Failed(r, a), Unlucky(r, a));
    if OwnFailure(r[a], r[a + 1], t) {
      assert OwnFailureAt(r, a, t);
    } else if t in Unlucky(r, a) {
      var j := UnluckyMeans(r, a, t);
    } else {
      var j := FailedMeans(r, a, r[a].Task(t).choice.file.contentID);
    }
  }
}
