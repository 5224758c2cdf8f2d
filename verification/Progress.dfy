/** The whole system comes to a standstill only behind downloads that hang: every other request can take a
    step of its own, or waits for a lock whose holder can. */
module Progress {
  import opened Wrappers
  import opened MutexMaps
  import opened Hydration
  import opened Resolver
  import opened Content
  import opened Serving
  import opened Pipe
  import opened World
  import Downloads

  // --- where a request is in resolveManifest ---

  predicate IsLoading(task: Task) {
    task.LoadFromOrigin? || task.LoadIntoCache? || task.Decoding?
  }

  /** A request without an answer from resolveManifest is the one that is in there. */
  predicate InPlace(w: WState, t: Tid) {
    var p, task := w.resolver.Pos(t), w.Task(t);
    if task.Resolving? then !p.Idle? else if IsLoading(task) then p.Loading? else !Unfinished(p)
  }

  ghost predicate AllInPlace(w: WState) {
    forall t :: InPlace(w, t)
  }

  lemma ResolverMoves(s: RState<Table>, t: Tid, m: Move<Table>, s': RState<Table>)
    requires RStep(s, t, m) == Some(s')
    ensures forall u :: u != t ==> s'.Pos(u) == s.Pos(u)
    ensures !s'.Pos(t).Idle?
  {
  }

  lemma LoadStaysInPlace(c: Codecs, w: WState, e: WEvent, w': WState)
    requires LoadStep(c, w, e) == Some(w') && IsLoadEvent(e) && AllInPlace(w)
    ensures AllInPlace(w')
  {
    assert InPlace(w, e.t);
    match e {
      case ManifestFromOrigin(t, fault) => OriginStaysInPlace(c, w, t, fault, w');
      case Decode(t) => DecodeStaysInPlace(c, w, t, w');
      case ManifestFromCache(t, _) => OthersInPlace(w, t, w');
      case ManifestToCache(t, _) => OthersInPlace(w, t, w');
    }
  }

  lemma OthersInPlace(w: WState, t: Tid, w': WState)
    requires AllInPlace(w) && InPlace(w', t)
    requires forall u :: u != t ==> w'.Task(u) == w.Task(u) && w'.resolver.Pos(u) == w.resolver.Pos(u)
    ensures AllInPlace(w')
  {
    forall u
      ensures InPlace(w', u)
    {
      assert InPlace(w, u);
    }
  }

  lemma EndStaysInPlace(w: WState, t: Tid, req: Request, result: Option<Table>, w': WState)
    requires AllInPlace(w) && w.EndLoad(t, req, result) == Some(w')
    ensures AllInPlace(w')
  {
    ResolverMoves(w.resolver, t, LoadEnds(result), w'.resolver);
    OthersInPlace(w, t, w');
  }

  lemma OriginStaysInPlace(c: Codecs, w: WState, t: Tid, fault: bool, w': WState)
    requires AllInPlace(w) && LoadStep(c, w, ManifestFromOrigin(t, fault)) == Some(w')
    ensures AllInPlace(w')
  {
    assert InPlace(w, t);
    var req := w.Task(t).req;
    if fault || req.manifestID !in w.origin.manifests {
      EndStaysInPlace(w, t, req, None, w');
    } else {
      OthersInPlace(w, t, w');
    }
  }

  lemma DecodeStaysInPlace(c: Codecs, w: WState, t: Tid, w': WState)
    requires AllInPlace(w) && LoadStep(c, w, Decode(t)) == Some(w')
    ensures AllInPlace(w')
  {
    var Decoding(req, bytes) := w.Task(t);
    EndStaysInPlace(w, t, req, match c.decode(bytes) case None => None case Some(m) => Some(Optimized(m.files)), w');
  }

  lemma HydrateStaysInPlace(c: Codecs, w: WState, e: WEvent, w': WState)
    requires HydrateStep(c, w, e) == Some(w') && AllInPlace(w)
    ensures AllInPlace(w')
  {
    assert InPlace(w, e.t);
    HydrateKeepsResolver(c, w, e, w');
    Downloads.HydrateMoves(c, w, e, w');
    HydratorTask(c, w, e, w');
    OthersInPlace(w, e.t, w');
  }

  lemma HydratorTask(c: Codecs, w: WState, e: WEvent, w': WState)
    requires HydrateStep(c, w, e) == Some(w')
    ensures !w.Task(e.t).Resolving? && !IsLoading(w.Task(e.t)) && !w'.Task(e.t).Resolving? && !IsLoading(w'.Task(e.t))
  {
  }

  lemma ServeStaysInPlace(c: Codecs, w: WState, e: WEvent, w': WState)
    requires ServeStep(c, w, e) == Some(w') && AllInPlace(w)
    ensures AllInPlace(w')
  {
    assert InPlace(w, e.t);
    ServeKeepsResolver(c, w, e, w');
    Downloads.ServeMoves(c, w, e, w');
    if e.Answer? { AnswerInPlace(w, e.t, w'); }
    OthersInPlace(w, e.t, w');
  }

  lemma AnswerInPlace(w: WState, t: Tid, w': WState)
    requires AnswerStep(w, t) == Some(w')
    ensures InPlace(w', t)
  {
  }

  lemma StepStaysInPlace(c: Codecs, w: WState, e: WEvent, w': WState)
    requires WStep(c, w, e) == Some(w') && AllInPlace(w)
    ensures AllInPlace(w')
  {
    if IsLoadEvent(e) {
      LoadStaysInPlace(c, w, e, w');
    } else if IsHydrateEvent(e) {
      HydrateStaysInPlace(c, w, e, w');
    } else if e.Answer? || e.ReadGzip? || e.ReadPlain? {
      ServeStaysInPlace(c, w, e, w');
    } else if e.Ask? || e.Resolve? {
      ResolveStaysInPlace(c, w, e, w');
    } else {
      assert forall t :: InPlace(w, t) ==> InPlace(w', t);
    }
  }

  lemma ResolveStaysInPlace(c: Codecs, w: WState, e: WEvent, w': WState)
    requires WStep(c, w, e) == Some(w') && AllInPlace(w) && (e.Ask? || e.Resolve?)
    ensures AllInPlace(w')
  {
    assert InPlace(w, e.t);
    ResolverMoves(w.resolver, e.t, if e.Ask? then Enter(e.req.manifestID) else Go, w'.resolver);
    OthersInPlace(w, e.t, w');
  }

  lemma {:induction false} AlwaysInPlace(c: Codecs, r: seq<WState>, i: nat)
    requires IsWRun(c, r) && i < |r|
    ensures AllInPlace(r[i])
  {
    if i > 0 {
      AlwaysInPlace(c, r, i - 1);
      assert WNextAt(c, r, i - 1);
      var e :| WStep(c, r[i - 1], e) == Some(r[i]);
      StepStaysInPlace(c, r[i - 1], e, r[i]);
    }
  }

  // --- who can take a step ---

  /** A step of the request of `t` itself, which is there. */
  predicate IsStepOf(e: WEvent, t: Tid) {
    !e.Launch? && !e.Deploy? && !e.Restart? && !e.Ask? && e.t == t
  }

  ghost predicate CanGo(c: Codecs, w: WState, t: Tid) {
    exists e :: IsStepOf(e, t) && WStep(c, w, e).Some?
  }

  lemma GoesBy(c: Codecs, w: WState, t: Tid, e: WEvent)
    requires IsStepOf(e, t) && WStep(c, w, e).Some?
    ensures CanGo(c, w, t)
  {
  }

  /** The manifest is loaded without waiting for anybody. */
  lemma LoaderGoes(c: Codecs, w: WState, t: Tid)
    requires InPlace(w, t) && w.resolver.Pos(t).Loading? && RStep(w.resolver, t, LoadEnds(None)).Some?
    ensures CanGo(c, w, t)
  {
    match w.Task(t) {
      case Resolving(_) => GoesBy(c, w, t, ManifestFromCache(t, true));
      case LoadFromOrigin(_) => GoesBy(c, w, t, ManifestFromOrigin(t, true));
      case LoadIntoCache(_, _) => GoesBy(c, w, t, ManifestToCache(t, Nothing));
      case Decoding(_, _) => GoesBy(c, w, t, Decode(t));
    }
  }

  lemma ResolverGoes(c: Codecs, w: WState, t: Tid)
    requires InPlace(w, t) && Unfinished(w.resolver.Pos(t))
    requires RStep(w.resolver, t, Go).Some? || RStep(w.resolver, t, LoadEnds(None)).Some?
    ensures CanGo(c, w, t)
  {
    if w.resolver.Pos(t).Loading? {
      LoaderGoes(c, w, t);
    } else {
      GoesBy(c, w, t, Resolve(t));
    }
  }

  /** Between resolveManifest and the locks of files nobody waits either. */
  lemma ReaderGoes(c: Codecs, w: WState, t: Tid)
    requires Downloads.InStep(w.hydration.Pos(t), w.Task(t)) && HPosOk(w.hydration, t)
    requires w.Task(t).TryGzip? || w.Task(t).TryPlain?
    ensures CanGo(c, w, t)
  {
    if w.Task(t).TryGzip? {
      GoesBy(c, w, t, ReadGzip(t, true));
    } else {
      GoesBy(c, w, t, ReadPlain(t, true));
    }
  }

  lemma AnsweredGoes(c: Codecs, w: WState, t: Tid)
    requires w.Task(t).Resolving? && w.resolver.Pos(t).Returned?
    ensures CanGo(c, w, t)
  {
    GoesBy(c, w, t, Answer(t));
  }

  lemma OutsideGoes(c: Codecs, w: WState, t: Tid)
    requires Downloads.InStep(w.hydration.Pos(t), w.Task(t)) && (w.hydration.Pos(t).Waited? || w.hydration.Pos(t).Released?)
    ensures CanGo(c, w, t)
  {
    if w.Task(t).Hydrate? {
      GoesBy(c, w, t, AfterWait(t));
    } else {
      GoesBy(c, w, t, AfterRelease(t));
    }
  }

  lemma DownloaderGoes(c: Codecs, w: WState, t: Tid)
    requires Downloads.InStep(w.hydration.Pos(t), w.Task(t)) && Moves(w.hydration, t)
    ensures CanGo(c, w, t)
  {
    if w.Task(t).Fill? {
      FillerGoes(c, w, t);
    } else if w.hydration.Pos(t).Downloading? {
      GoesBy(c, w, t, Fetch(t, true));
    } else {
      GoesBy(c, w, t, FileLock(t));
    }
  }

  lemma FillerGoes(c: Codecs, w: WState, t: Tid)
    requires w.Task(t).Fill? && w.hydration.Pos(t).Downloading? && Moves(w.hydration, t)
    ensures CanGo(c, w, t)
  {
    GoesBy(c, w, t, FillCache(t, NoFault, Supply(0, false)));
  }

  // --- standstill ---

  ghost predicate NobodyGoes(c: Codecs, w: WState) {
    forall t :: !CanGo(c, w, t)
  }

  /** There is no request, or it hangs, or it waits for the file lock of one that hangs. */
  predicate HasNothingToDo(w: WState, t: Tid) {
    w.Task(t).NoTask? || Blocked(w.hydration, t)
  }

  lemma NothingToDo(c: Codecs, w: WState, t: Tid)
    requires HasNothingToDo(w, t) && Downloads.InStep(w.hydration.Pos(t), w.Task(t)) && HInv(w.hydration)
    ensures !CanGo(c, w, t)
  {
    if Blocked(w.hydration, t) { BlockedStays(w.hydration, t); }
  }

  lemma AllFinished(c: Codecs, r: seq<WState>, i: nat, t: Tid)
    requires IsWRun(c, r) && i < |r| && NobodyGoes(c, r[i]) && AllInPlace(r[i])
    ensures !Unfinished(r[i].resolver.Pos(t))
  {
    if Unfinished(r[i].resolver.Pos(t)) {
      var s := r[i].resolver;
      var q := ResolverRunInside(c, r, i);
      DeadlockFree(q, |q| - 1, t);
      var u :| Unfinished(s.Pos(u)) && (RStep(s, u, Go).Some? || RStep(s, u, LoadEnds(None)).Some?);
      assert InPlace(r[i], u);
      ResolverGoes(c, r[i], u);
    }
  }

  lemma NoDownloadMoves(c: Codecs, w: WState)
    requires NobodyGoes(c, w) && Downloads.AllInStep(w)
    ensures !SomeoneInsideMoves(w.hydration)
  {
    if SomeoneInsideMoves(w.hydration) {
      var u :| Inside(w.hydration.Pos(u)) && Moves(w.hydration, u);
      DownloaderGoes(c, w, u);
    }
  }

  lemma WhoStands(c: Codecs, w: WState, t: Tid)
    requires !CanGo(c, w, t) && InPlace(w, t) && !Unfinished(w.resolver.Pos(t))
    requires Downloads.InStep(w.hydration.Pos(t), w.Task(t)) && HPosOk(w.hydration, t)
    requires Inside(w.hydration.Pos(t)) ==> Blocked(w.hydration, t)
    ensures HasNothingToDo(w, t)
  {
    match w.Task(t) {
      case Resolving(_) => AnsweredGoes(c, w, t);
      case TryGzip(_, _, _, _) => ReaderGoes(c, w, t);
      case TryPlain(_, _, _, _) => ReaderGoes(c, w, t);
      case _ => if !Inside(w.hydration.Pos(t)) && !w.hydration.Pos(t).HIdle? { OutsideGoes(c, w, t); }
    }
  }

  /** In every reachable state, no request can take a step if and only if each of them hangs in a download
      or waits for one that does. Everybody else gets on, or waits for somebody who does. */
  lemma StandstillIff(c: Codecs, r: seq<WState>, i: nat)
    requires IsWRun(c, r) && i < |r|
    ensures NobodyGoes(c, r[i]) <==> forall t :: HasNothingToDo(r[i], t)
  {
    var w := r[i];
    AlwaysInPlace(c, r, i);
    Downloads.AlwaysInStep(c, r, i);
    var q := Downloads.HydrationRunInside(c, r, i);
    HRunKeepsInv(q, |q| - 1);
    if NobodyGoes(c, w) {
      NoDownloadMoves(c, w);
      NobodyMovesIff(q, |q| - 1);
      forall t
        ensures HasNothingToDo(w, t)
      {
        AllFinished(c, r, i, t);
        assert InPlace(w, t) && Downloads.InStep(w.hydration.Pos(t), w.Task(t)) && HPosOk(w.hydration, t);
        WhoStands(c, w, t);
      }
    }
    if forall t :: HasNothingToDo(w, t) {
      forall t
        ensures !CanGo(c, w, t)
      {
        NothingToDo(c, w, t);
      }
    }
  }
}
