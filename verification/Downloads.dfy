/** The file lock inside the whole system: what the requests do with it is a run of module Hydration,
    so one content is never downloaded by two of them at a time. */
module Downloads {
  import opened Wrappers
  import opened ObjectIDs
  import opened MutexMaps
  import opened Hydration
  import opened Content
  import opened Pipe
  import opened World

  /** A task is where its thread is with the file lock. */
  predicate InStep(p: HPos, task: Task) {
    match task
    case Hydrate(_, _, choice) =>
      (p.Trying? || p.Downloading? || p.Lost? || p.Awaiting? || p.Passing? || p.Waited?) && p.id == choice.file.contentID
    case Fill(_, _, choice, _) => p.Downloading? && p.id == choice.file.contentID
    case Stuck(_, _, choice) => p.Hung? && p.id == choice.file.contentID
    case EndHydrate(_, _, choice, _) => (p.Releasing? || p.Released?) && p.id == choice.file.contentID
    case _ => p.HIdle?
  }

  ghost predicate AllInStep(w: WState) {
    forall t :: InStep(w.hydration.Pos(t), w.Task(t))
  }

  lemma HStepMoves(s: HState, t: Tid, m: HMove, s': HState)
    requires HStep(s, t, m) == Some(s')
    ensures forall u :: u != t ==> s'.Pos(u) == s.Pos(u)
  {
  }

  /** Which of its moves `t` makes with the lock in a step of the system. */
  function MoveOf(e: WEvent, w': WState): HMove {
    match e
    case FileLock(_) => Proceed
    case AfterWait(_) => Leave
    case AfterRelease(_) => Leave
    case FillCache(t, _, _) => if w'.Task(t).Stuck? then Hang else EndDownload
    case _ => EndDownload
  }

  lemma HydrateMoves(c: Codecs, w: WState, e: WEvent, w': WState)
    requires HydrateStep(c, w, e) == Some(w')
    ensures forall u :: u != e.t ==> w'.Task(u) == w.Task(u)
    ensures (e.Fetch? && w'.hydration == w.hydration) || HStep(w.hydration, e.t, MoveOf(e, w')) == Some(w'.hydration)
  {
  }

  lemma LockMoverInStep(w: WState, t: Tid, h: HState)
    requires InStep(w.hydration.Pos(t), w.Task(t)) && (w.Task(t).Hydrate? || w.Task(t).EndHydrate?)
    requires HStep(w.hydration, t, Proceed) == Some(h)
    ensures InStep(h.Pos(t), w.Task(t))
  {
  }

  lemma FillMoverInStep(c: Codecs, w: WState, t: Tid, insert: InsertFault, supply: Supply, w': WState)
    requires w.Task(t).Fill? && FillStep(c, w, t, insert, supply) == Some(w') && InStep(w.hydration.Pos(t), w.Task(t))
    ensures InStep(w'.hydration.Pos(t), w'.Task(t))
  {
  }

  lemma MoverInStep(c: Codecs, w: WState, e: WEvent, w': WState)
    requires HydrateStep(c, w, e) == Some(w') && InStep(w.hydration.Pos(e.t), w.Task(e.t))
    ensures InStep(w'.hydration.Pos(e.t), w'.Task(e.t))
  {
    match e
    case FileLock(t) => LockMoverInStep(w, t, w'.hydration);
    case FillCache(t, insert, supply) => FillMoverInStep(c, w, t, insert, supply, w');
    case _ =>
  }

  lemma HydrateStaysInStep(c: Codecs, w: WState, e: WEvent, w': WState)
    requires AllInStep(w) && HydrateStep(c, w, e) == Some(w')
    ensures AllInStep(w')
  {
    HydrateMoves(c, w, e, w');
    if w'.hydration != w.hydration {
      HStepMoves(w.hydration, e.t, MoveOf(e, w'), w'.hydration);
    }
    forall u
      ensures InStep(w'.hydration.Pos(u), w'.Task(u))
    {
      assert InStep(w.hydration.Pos(u), w.Task(u));
      if u == e.t { MoverInStep(c, w, e, w'); }
    }
  }

  lemma ServeMoves(c: Codecs, w: WState, e: WEvent, w': WState)
    requires ServeStep(c, w, e) == Some(w')
    ensures forall u :: u != e.t ==> w'.Task(u) == w.Task(u)
    ensures w'.hydration == w.hydration
            || (e.ReadPlain? && HStep(w.hydration, e.t, Come(w.Task(e.t).choice.file.contentID)) == Some(w'.hydration))
  {
    if e.Answer? { AnswerMoves(w, e.t, w'); }
  }

  lemma AnswerMoves(w: WState, t: Tid, w': WState)
    requires AnswerStep(w, t) == Some(w')
    ensures w'.hydration == w.hydration && forall u :: u != t ==> w'.Task(u) == w.Task(u)
  {
  }

  lemma ReadPlainMoverInStep(w: WState, t: Tid, fault: bool, w': WState)
    requires w.Task(t).TryPlain? && ReadPlainStep(w, t, fault) == Some(w') && InStep(w.hydration.Pos(t), w.Task(t))
    ensures InStep(w'.hydration.Pos(t), w'.Task(t))
  {
  }

  lemma ServeMoverInStep(c: Codecs, w: WState, e: WEvent, w': WState)
    requires ServeStep(c, w, e) == Some(w') && InStep(w.hydration.Pos(e.t), w.Task(e.t))
    ensures InStep(w'.hydration.Pos(e.t), w'.Task(e.t))
  {
    if e.ReadPlain? {
      ReadPlainMoverInStep(w, e.t, e.fault, w');
    }
  }

  lemma ServeStaysInStep(c: Codecs, w: WState, e: WEvent, w': WState)
    requires AllInStep(w) && ServeStep(c, w, e) == Some(w')
    ensures AllInStep(w')
  {
    ServeMoves(c, w, e, w');
    if w'.hydration != w.hydration {
      HStepMoves(w.hydration, e.t, Come(w.Task(e.t).choice.file.contentID), w'.hydration);
    }
    forall u
      ensures InStep(w'.hydration.Pos(u), w'.Task(u))
    {
      assert InStep(w.hydration.Pos(u), w.Task(u));
      if u == e.t { ServeMoverInStep(c, w, e, w'); }
    }
  }

  lemma LoadStaysInStep(c: Codecs, w: WState, e: WEvent, w': WState)
    requires AllInStep(w) && LoadStep(c, w, e) == Some(w')
    ensures AllInStep(w')
  {
    forall u
      ensures InStep(w'.hydration.Pos(u), w'.Task(u))
    {
      assert InStep(w.hydration.Pos(u), w.Task(u));
    }
  }

  lemma OtherStaysInStep(c: Codecs, w: WState, e: WEvent, w': WState)
    requires AllInStep(w) && WStep(c, w, e) == Some(w')
    requires e.Launch? || e.Deploy? || e.Ask? || e.Resolve? || e.Restart?
    ensures AllInStep(w')
  {
    forall u
      ensures InStep(w'.hydration.Pos(u), w'.Task(u))
    {
      assert InStep(w.hydration.Pos(u), w.Task(u));
    }
  }

  lemma NextStaysInStep(c: Codecs, w: WState, w': WState)
    requires AllInStep(w) && WNext(c, w, w')
    ensures AllInStep(w')
  {
    var e :| WStep(c, w, e) == Some(w');
    if e.Launch? || e.Deploy? || e.Ask? || e.Resolve? || e.Restart? {
      OtherStaysInStep(c, w, e, w');
    } else if IsLoadEvent(e) {
      LoadStaysInStep(c, w, e, w');
    } else if IsHydrateEvent(e) {
      HydrateStaysInStep(c, w, e, w');
    } else {
      ServeStaysInStep(c, w, e, w');
    }
  }

  lemma {:induction false} AlwaysInStep(c: Codecs, r: seq<WState>, i: nat)
    requires IsWRun(c, r) && i < |r|
    ensures AllInStep(r[i])
  {
    if i > 0 {
      AlwaysInStep(c, r, i - 1);
      assert WNextAt(c, r, i - 1);
      NextStaysInStep(c, r[i - 1], r[i]);
    }
  }

  // --- the run inside ---

  lemma NextMovesLock(c: Codecs, w: WState, w': WState)
    requires WNext(c, w, w')
    ensures w'.hydration == w.hydration || w'.hydration == HStart() || HNext(w.hydration, w'.hydration)
  {
    var e :| WStep(c, w, e) == Some(w');
    if IsHydrateEvent(e) {
      HydrateMoves(c, w, e, w');
    } else if e.ReadPlain? {
      ServeMoves(c, w, e, w');
    } else {
      OthersKeepLock(c, w, e, w');
    }
  }

  lemma OthersKeepLock(c: Codecs, w: WState, e: WEvent, w': WState)
    requires WStep(c, w, e) == Some(w') && !IsHydrateEvent(e) && !e.ReadPlain?
    ensures w'.hydration == w.hydration || w'.hydration == HStart()
  {
  }

  lemma ExtendHRun(q: seq<HState>, s: HState)
    requires IsHRun(q) && HNext(q[|q| - 1], s)
    ensures IsHRun(q + [s])
  {
    var q' := q + [s];
    forall i | 0 <= i < |q'| - 1
      ensures HNextAt(q', i)
    {
      assert i < |q| - 1 ==> HNextAt(q, i);
    }
  }

  /** Inside every run of the system, what was done with the file lock since the last restart is a run
      of module Hydration. */
  lemma {:induction false} HydrationRunInside(c: Codecs, r: seq<WState>, i: nat) returns (q: seq<HState>)
    requires IsWRun(c, r) && i < |r|
    ensures IsHRun(q) && q[|q| - 1] == r[i].hydration
  {
    if i == 0 {
      q := [HStart()];
    } else {
      q := HydrationRunInside(c, r, i - 1);
      assert WNextAt(c, r, i - 1);
      NextMovesLock(c, r[i - 1], r[i]);
      if r[i].hydration == HStart() {
        q := [HStart()];
      } else if r[i].hydration != r[i - 1].hydration {
        ExtendHRun(q, r[i].hydration);
        q := q + [r[i].hydration];
      }
    }
  }

  /** `t` is asking the origin for `id`, or has its content in hand for the cache. */
  predicate Downloads(w: WState, t: Tid, id: ObjectID) {
    && (w.Task(t).Hydrate? || w.Task(t).Fill?) && w.Task(t).choice.file.contentID == id
    && (w.Task(t).Fill? || w.hydration.Pos(t).Downloading?)
  }

  /** In the whole system, two requests never download one content at the same time. */
  lemma OneDownloadPerContent(c: Codecs, r: seq<WState>, i: nat, t: Tid, u: Tid, id: ObjectID)
    requires IsWRun(c, r) && i < |r| && Downloads(r[i], t, id) && Downloads(r[i], u, id)
    ensures t == u
  {
    AlwaysInStep(c, r, i);
    var q := HydrationRunInside(c, r, i);
    assert InStep(r[i].hydration.Pos(t), r[i].Task(t)) && InStep(r[i].hydration.Pos(u), r[i].Task(u));
    DownloadsNeverOverlap(q, |q| - 1, t, u);
  }
}
