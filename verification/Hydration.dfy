/** The download of a file by any number of threads, under one named lock per content: the first to
    take it downloads, the others wait for it. A download may hang, and then it keeps its lock (when it
    does is the subject of module Filling). The steps inside a MutexMap call are those of module
    MutexMaps. */
module Hydration {
  import opened Wrappers
  import opened ObjectIDs
  import opened MutexMaps

  /** Where a thread is in `hydrateCacheFromOriginAndServeFromCache`. */
  datatype HPos =
    | HIdle
    | Trying(id: ObjectID)                            // inside TryLock
    | Downloading(id: ObjectID, ch: Chan)             // was first
    | Hung(id: ObjectID, ch: Chan)                    // its download never returns
    | Releasing(id: ObjectID, ch: Chan)               // inside the deferred unlock
    | Released(id: ObjectID)
    | Lost(id: ObjectID, to: Chan)                    // was not first: the lock was taken through `to`
    | Awaiting(id: ObjectID, to: Chan)                // inside Lock
    | Passing(id: ObjectID, ch: Chan, to: Chan)       // inside the unlock that follows it
    | Waited(id: ObjectID, to: Chan)

  datatype HState = HState(mm: State<ObjectID>, pos: map<Tid, HPos>)
  {
    function Pos(t: Tid): HPos {
      if t in pos then pos[t] else HIdle
    }

    function Goto(t: Tid, p: HPos): HState {
      this.(pos := pos[t := p])
    }

    /** `t` moves to `p` by doing `a` on the lock map. */
    function Call(t: Tid, a: Action<ObjectID>, p: HPos): Option<HState> {
      match Step(mm, t, a)
      case None => None
      case Some(mm') => Some(Goto(t, p).(mm := mm'))
    }
  }

  datatype HMove =
    | Come(id: ObjectID)
    | EndDownload
    | Hang
    | Leave
    | Proceed

  function HStart(): HState {
    HState(Init(), map[])
  }

  function HStep(s: HState, t: Tid, m: HMove): Option<HState> {
    match m
    case Come(id) => if s.Pos(t).HIdle? then s.Call(t, CallTryLock(id), Trying(id)) else None
    case EndDownload =>
      if s.Pos(t).Downloading? then s.Call(t, CallUnlock(s.Pos(t).ch), Releasing(s.Pos(t).id, s.Pos(t).ch)) else None
    case Hang => if s.Pos(t).Downloading? then Some(s.Goto(t, Hung(s.Pos(t).id, s.Pos(t).ch))) else None
    case Leave => if s.Pos(t).Released? || s.Pos(t).Waited? then Some(s.Goto(t, HIdle)) else None
    case Proceed => ProceedStep(s, t)
  }

  function ProceedStep(s: HState, t: Tid): Option<HState> {
    var p, q := s.Pos(t), s.mm.At(t);
    match p
    case Trying(id) =>
      if !q.InTry? then s.Call(t, Run, p)
      else if id in s.mm.locks then s.Call(t, Run, Lost(id, s.mm.locks[id]))
      else s.Call(t, Run, Downloading(id, |s.mm.made|))
    case Lost(id, to) => s.Call(t, CallLock(id), Awaiting(id, to))
    case Awaiting(id, to) =>
      if !q.Done? then s.Call(t, Run, p)
      else if q.got.Some? then s.Call(t, CallUnlock(q.got.value), Passing(id, q.got.value, to))
      else None
    case Passing(id, ch, to) => if !q.Done? then s.Call(t, Run, p) else Some(s.Goto(t, Waited(id, to)))
    case Releasing(id, ch) => if !q.Done? then s.Call(t, Run, p) else Some(s.Goto(t, Released(id)))
    case _ => None
  }

  ghost predicate HNext(s: HState, s': HState) {
    exists t, m :: HStep(s, t, m) == Some(s')
  }

  ghost predicate HNextAt(r: seq<HState>, i: nat)
    requires i < |r| - 1
  {
    HNext(r[i], r[i + 1])
  }

  ghost predicate IsHRun(r: seq<HState>) {
    |r| > 0 && r[0] == HStart() && forall i :: 0 <= i < |r| - 1 ==> HNextAt(r, i)
  }

  // --- the invariant ---

  /** `t` holds the lock of `id` through `ch` and has not called its unlock callback. */
  predicate Owns(mm: State<ObjectID>, t: Tid, id: ObjectID, ch: Chan) {
    MadeFor(mm, ch, id, t) && ch in mm.pending
  }

  predicate InUnlockCall(q: Pc<ObjectID>, id: ObjectID, ch: Chan) {
    q.Done? || q == WantUnlock(id, ch) || q == InUnlock(id, ch) || q == Deleted(id, ch)
  }

  predicate WasMade(mm: State<ObjectID>, id: ObjectID, ch: Chan) {
    ch < |mm.made| && mm.made[ch].key == id
  }

  predicate HPosOk(s: HState, t: Tid) {
    var q := s.mm.At(t);
    match s.Pos(t)
    case HIdle => q.Done?
    case Trying(id) => q == WantTry(id, false) || q == InTry(id, false)
    case Downloading(id, ch) => q.Done? && Owns(s.mm, t, id, ch)
    case Hung(id, ch) => q.Done? && Owns(s.mm, t, id, ch)
    case Releasing(id, ch) => InUnlockCall(q, id, ch)
    case Released(_) => q.Done?
    case Lost(id, to) => q.Done? && WasMade(s.mm, id, to)
    case Awaiting(id, to) =>
      && WasMade(s.mm, id, to)
      && (q == WantTry(id, true) || q == InTry(id, true) || (q.Waiting? && q.key == id)
          || (q.Done? && q.got.Some? && Owns(s.mm, t, id, q.got.value) && IsOver(s.mm, id, to)))
    case Passing(id, ch, to) => InUnlockCall(q, id, ch) && IsOver(s.mm, id, to)
    case Waited(id, to) => q.Done? && IsOver(s.mm, id, to)
  }

  /** Whoever must call the callback of `ch` knows about it. */
  predicate HCarries(s: HState, t: Tid, ch: Chan) {
    match s.Pos(t)
    case Downloading(_, c) => c == ch
    case Hung(_, c) => c == ch
    case Awaiting(_, _) => s.mm.At(t) == Done(Some(ch))
    case _ => false
  }

  predicate HCarriedOk(s: HState, ch: Chan) {
    ch < |s.mm.made| && HCarries(s, s.mm.made[ch].owner, ch)
  }

  ghost predicate HInv(s: HState) {
    && Inv(s.mm)
    && (forall t :: HPosOk(s, t))
    && (forall ch :: ch in s.mm.pending ==> HCarriedOk(s, ch))
  }

  /** The step of the lock map that `t` doing `m` consists of, if any. */
  function HAction(s: HState, t: Tid, m: HMove): Option<Action<ObjectID>> {
    var p, q := s.Pos(t), s.mm.At(t);
    match m
    case Come(id) => Some(CallTryLock(id))
    case EndDownload => if p.Downloading? then Some(CallUnlock(p.ch)) else None
    case Hang => None
    case Leave => None
    case Proceed =>
      if p.Lost? then Some(CallLock(p.id))
      else if !q.Done? then Some(Run)
      else if p.Awaiting? && q.got.Some? then Some(CallUnlock(q.got.value))
      else None
  }

  lemma HActs(s: HState, t: Tid, m: HMove, s': HState)
    requires HPosOk(s, t) && HStep(s, t, m) == Some(s')
    ensures var a := HAction(s, t, m);
            if a.None? then s'.mm == s.mm else Step(s.mm, t, a.value) == Some(s'.mm)
    ensures forall u :: u != t ==> s'.Pos(u) == s.Pos(u)
  {
  }

  lemma TryingHRunOk(s: HState, t: Tid, m: HMove, s': HState)
    requires HPosOk(s, t) && HStep(s, t, m) == Some(s') && HAction(s, t, m) == Some(Run) && s.Pos(t).Trying?
    requires s.Pos(t).id in s.mm.locks ==> LockOk(s.mm, s.Pos(t).id, s.mm.locks[s.Pos(t).id])
    ensures HPosOk(s', t)
  {
  }

  lemma AwaitingHRunOk(s: HState, t: Tid, m: HMove, s': HState)
    requires HPosOk(s, t) && PcOk(s.mm, t) && HStep(s, t, m) == Some(s') && HAction(s, t, m) == Some(Run)
    requires s.Pos(t).Awaiting?
    ensures HPosOk(s', t)
  {
  }

  lemma UnlockHRunOk(s: HState, t: Tid, m: HMove, s': HState)
    requires HPosOk(s, t) && HStep(s, t, m) == Some(s') && HAction(s, t, m) == Some(Run)
    requires s.Pos(t).Passing? || s.Pos(t).Releasing?
    ensures HPosOk(s', t)
  {
    if s.Pos(t).Passing? {
      OverForEver(s.mm, t, Run, s'.mm, s.Pos(t).id, s.Pos(t).to);
    }
  }

  lemma OwnHRunOk(s: HState, t: Tid, m: HMove, s': HState)
    requires HInv(s) && HStep(s, t, m) == Some(s') && HAction(s, t, m) == Some(Run)
    ensures HPosOk(s', t)
  {
    assert HPosOk(s, t) && PcOk(s.mm, t);
    var p := s.Pos(t);
    if p.Trying? {
      TryingHRunOk(s, t, m, s');
    } else if p.Awaiting? {
      AwaitingHRunOk(s, t, m, s');
    } else {
      UnlockHRunOk(s, t, m, s');
    }
  }

  lemma OwnHCallOk(s: HState, t: Tid, m: HMove, s': HState)
    requires HPosOk(s, t) && PcOk(s.mm, t) && HStep(s, t, m) == Some(s') && HAction(s, t, m) != Some(Run)
    ensures HPosOk(s', t)
  {
  }

  lemma OtherHPosOk(s: HState, t: Tid, a: Option<Action<ObjectID>>, s': HState, u: Tid)
    requires HPosOk(s, u) && u != t && s'.Pos(u) == s.Pos(u) && MmFrame(s.mm, t, s'.mm)
    requires if a.None? then s'.mm == s.mm else Step(s.mm, t, a.value) == Some(s'.mm)
    ensures HPosOk(s', u)
  {
    assert s'.mm.At(u) == s.mm.At(u);
    var p := s.Pos(u);
    if (p.Awaiting? || p.Passing? || p.Waited?) && a.Some? && IsOver(s.mm, p.id, p.to) {
      OverForEver(s.mm, t, a.value, s'.mm, p.id, p.to);
    }
  }

  lemma HCarriedByOther(s: HState, t: Tid, s': HState, ch: Chan)
    requires MmFrame(s.mm, t, s'.mm) && HCarriedOk(s, ch) && s.mm.made[ch].owner != t
    requires s'.Pos(s.mm.made[ch].owner) == s.Pos(s.mm.made[ch].owner)
    ensures HCarriedOk(s', ch)
  {
    assert s'.mm.At(s.mm.made[ch].owner) == s.mm.At(s.mm.made[ch].owner);
  }

  lemma HCarriedBySelf(s: HState, t: Tid, m: HMove, s': HState, ch: Chan)
    requires HPosOk(s, t) && PcOk(s.mm, t) && HStep(s, t, m) == Some(s') && MmFrame(s.mm, t, s'.mm)
    requires ch in s'.mm.pending && (ch in s.mm.pending ==> HCarriedOk(s, ch) && s.mm.made[ch].owner == t)
    ensures HCarriedOk(s', ch)
  {
  }

  lemma HStepKeepsInv(s: HState, t: Tid, m: HMove, s': HState)
    requires HInv(s) && HStep(s, t, m) == Some(s')
    ensures HInv(s')
  {
    assert HPosOk(s, t) && PcOk(s.mm, t);
    HActs(s, t, m, s');
    var a := HAction(s, t, m);
    if a.Some? {
      StepKeepsInv(s.mm, t, a.value, s'.mm);
      MmStepFrame(s.mm, t, a.value, s'.mm);
    }
    forall u
      ensures HPosOk(s', u)
    {
      assert HPosOk(s, u);
      if u != t {
        OtherHPosOk(s, t, a, s', u);
      } else if a == Some(Run) {
        OwnHRunOk(s, t, m, s');
      } else {
        OwnHCallOk(s, t, m, s');
      }
    }
    forall ch | ch in s'.mm.pending
      ensures HCarriedOk(s', ch)
    {
      if ch in s.mm.pending && s.mm.made[ch].owner != t {
        HCarriedByOther(s, t, s', ch);
      } else {
        HCarriedBySelf(s, t, m, s', ch);
      }
    }
  }

  lemma HNextKeepsInv(s: HState, s': HState)
    requires HInv(s) && HNext(s, s')
    ensures HInv(s')
  {
    var t, m :| HStep(s, t, m) == Some(s');
    HStepKeepsInv(s, t, m, s');
  }

  lemma {:induction false} HRunKeepsInv(r: seq<HState>, i: nat)
    requires IsHRun(r) && i < |r|
    ensures HInv(r[i])
  {
    if i > 0 {
      HRunKeepsInv(r, i - 1);
      assert HNextAt(r, i - 1);
      HNextKeepsInv(r[i - 1], r[i]);
    }
  }

  // --- what it gives ---

  predicate HasDownload(p: HPos) {
    p.Downloading? || p.Hung?
  }

  /** One content is never downloaded by two threads at a time, hung downloads included. */
  lemma DownloadsNeverOverlap(r: seq<HState>, i: nat, t: Tid, u: Tid)
    requires IsHRun(r) && i < |r| && HasDownload(r[i].Pos(t)) && HasDownload(r[i].Pos(u))
    requires r[i].Pos(t).id == r[i].Pos(u).id
    ensures t == u
  {
    HRunKeepsInv(r, i);
    OneDownloader(r[i], t, u);
  }

  lemma OneDownloader(s: HState, t: Tid, u: Tid)
    requires HInv(s) && HasDownload(s.Pos(t)) && HasDownload(s.Pos(u)) && s.Pos(t).id == s.Pos(u).id
    ensures t == u
  {
    assert HPosOk(s, t) && HPosOk(s, u);
    assert PendingOk(s.mm, s.Pos(t).ch) && PendingOk(s.mm, s.Pos(u).ch);
  }

  lemma {:induction false} StaysOver(r: seq<HState>, i: nat, j: nat, id: ObjectID, ch: Chan)
    requires IsHRun(r) && i <= j < |r| && IsOver(r[i].mm, id, ch)
    ensures IsOver(r[j].mm, id, ch)
    decreases j
  {
    if i < j {
      StaysOver(r, i, j - 1, id, ch);
      HRunKeepsInv(r, j - 1);
      assert HNextAt(r, j - 1);
      NextKeepsOver(r[j - 1], r[j], id, ch);
    }
  }

  lemma NextKeepsOver(s: HState, s': HState, id: ObjectID, ch: Chan)
    requires HInv(s) && HNext(s, s') && IsOver(s.mm, id, ch)
    ensures IsOver(s'.mm, id, ch)
  {
    var t, m :| HStep(s, t, m) == Some(s');
    assert HPosOk(s, t);
    HActs(s, t, m, s');
    var a := HAction(s, t, m);
    if a.Some? {
      OverForEver(s.mm, t, a.value, s'.mm, id, ch);
    }
  }

  /** Who was not first goes on only after the download that was first has ended, for good. */
  lemma WaitersComeAfter(r: seq<HState>, i: nat, t: Tid, j: nat, u: Tid)
    requires IsHRun(r) && i <= j < |r| && r[i].Pos(t).Waited? && HasDownload(r[j].Pos(u))
    ensures r[j].Pos(u).ch != r[i].Pos(t).to
  {
    HRunKeepsInv(r, i);
    HRunKeepsInv(r, j);
    assert HPosOk(r[i], t) && HPosOk(r[j], u);
    StaysOver(r, i, j, r[i].Pos(t).id, r[i].Pos(t).to);
    assert PendingOk(r[j].mm, r[j].Pos(u).ch);
  }

  // --- what hangs, and what only waits ---

  predicate Inside(p: HPos) {
    !p.HIdle? && !p.Released? && !p.Waited?
  }

  /** `t` can take a step; a download that does not hang can end. */
  predicate Moves(s: HState, t: Tid) {
    HStep(s, t, Proceed).Some? || HStep(s, t, EndDownload).Some?
  }

  /** `t` waits in Lock for the channel of a download that hangs. */
  predicate WaitsForHung(s: HState, t: Tid) {
    && s.Pos(t).Awaiting? && s.mm.At(t).Waiting? && s.mm.At(t).ch < |s.mm.made|
    && s.Pos(s.mm.made[s.mm.At(t).ch].owner) == Hung(s.Pos(t).id, s.mm.At(t).ch)
  }

  predicate Blocked(s: HState, t: Tid) {
    s.Pos(t).Hung? || WaitsForHung(s, t)
  }

  ghost predicate SomeoneInsideMoves(s: HState) {
    exists t :: Inside(s.Pos(t)) && Moves(s, t)
  }

  ghost predicate AllInsideBlocked(s: HState) {
    forall t :: Inside(s.Pos(t)) ==> Blocked(s, t)
  }

  /** Nobody inside can move if and only if everybody inside hangs, or waits for one that hangs. In
      particular there is no deadlock among threads whose downloads end. */
  lemma NobodyMovesIff(r: seq<HState>, i: nat)
    requires IsHRun(r) && i < |r|
    ensures !SomeoneInsideMoves(r[i]) <==> AllInsideBlocked(r[i])
  {
    HRunKeepsInv(r, i);
    var s := r[i];
    if AllInsideBlocked(s) {
      forall t | Inside(s.Pos(t))
        ensures !Moves(s, t)
      {
        BlockedStays(s, t);
      }
    }
    if !SomeoneInsideMoves(s) {
      forall t | Inside(s.Pos(t))
        ensures Blocked(s, t)
      {
        MovesOrBlocked(s, t);
      }
    }
  }

  lemma MovesOrBlocked(s: HState, t: Tid)
    requires HInv(s) && Inside(s.Pos(t)) && !SomeoneInsideMoves(s)
    ensures Blocked(s, t)
  {
    assert HPosOk(s, t) && PcOk(s.mm, t);
    if s.mm.master.Some? {
      MasterHolderMoves(s, s.mm.master.value);
    } else if s.Pos(t).Awaiting? && s.mm.At(t).Waiting? && s.mm.At(t).ch !in s.mm.closed {
      assert PcOk(s.mm, s.mm.made[s.mm.At(t).ch].owner);
      OwnerMovesOrHangs(s, s.mm.made[s.mm.At(t).ch].owner, s.mm.At(t).key, s.mm.At(t).ch);
    } else {
      assert s.Pos(t).Hung? || Moves(s, t);
    }
  }

  lemma MasterHolderMoves(s: HState, t: Tid)
    requires HInv(s) && s.mm.master == Some(t)
    ensures SomeoneInsideMoves(s)
  {
    assert HPosOk(s, t) && RunStep(s.mm, t).Some?;
    assert Inside(s.Pos(t)) && Moves(s, t);
  }

  lemma OwnerMovesOrHangs(s: HState, t: Tid, id: ObjectID, ch: Chan)
    requires HInv(s) && s.mm.master.None? && Live(s.mm, id, ch) && s.mm.made[ch].owner == t
    ensures SomeoneInsideMoves(s) || s.Pos(t) == Hung(id, ch)
  {
    assert HPosOk(s, t) && LockOk(s.mm, id, ch);
    if ch in s.mm.pending {
      assert HCarriedOk(s, ch);
      assert s.Pos(t).Hung? || (Inside(s.Pos(t)) && Moves(s, t));
    } else {
      assert Inside(s.Pos(t)) && Moves(s, t);
    }
  }

  lemma BlockedStays(s: HState, t: Tid)
    requires HInv(s) && Blocked(s, t)
    ensures forall m :: HStep(s, t, m).None?
  {
    if WaitsForHung(s, t) {
      var ch := s.mm.At(t).ch;
      var u := s.mm.made[ch].owner;
      assert HPosOk(s, u) && PendingOk(s.mm, ch) && LockOk(s.mm, s.Pos(u).id, ch);
    }
  }

  /** And that is for ever: who hangs, or waits for one that hangs, never moves again. */
  lemma {:induction false} BlockedForEver(r: seq<HState>, i: nat, j: nat, t: Tid)
    requires IsHRun(r) && i <= j < |r| && Blocked(r[i], t)
    ensures Blocked(r[j], t) && r[j].Pos(t) == r[i].Pos(t) && r[j].mm.At(t) == r[i].mm.At(t)
    decreases j
  {
    if i < j {
      BlockedForEver(r, i, j - 1, t);
      HRunKeepsInv(r, j - 1);
      assert HNextAt(r, j - 1);
      NextKeepsBlocked(r[j - 1], r[j], t);
    }
  }

  lemma NextKeepsBlocked(s: HState, s': HState, t: Tid)
    requires HInv(s) && HNext(s, s') && Blocked(s, t)
    ensures Blocked(s', t) && s'.Pos(t) == s.Pos(t) && s'.mm.At(t) == s.mm.At(t)
  {
    var u, m :| HStep(s, u, m) == Some(s');
    OthersKeepBlocked(s, u, m, s', t);
  }

  lemma OthersKeepBlocked(s: HState, u: Tid, m: HMove, s': HState, t: Tid)
    requires HInv(s) && HStep(s, u, m) == Some(s') && Blocked(s, t)
    ensures Blocked(s', t) && s'.Pos(t) == s.Pos(t) && s'.mm.At(t) == s.mm.At(t)
  {
    BlockedStays(s, t);
    OthersUntouched(s, u, m, s', t);
    if WaitsForHung(s, t) {
      var v := s.mm.made[s.mm.At(t).ch].owner;
      BlockedStays(s, v);
      OthersUntouched(s, u, m, s', v);
    }
  }

  lemma OthersUntouched(s: HState, u: Tid, m: HMove, s': HState, t: Tid)
    requires HInv(s) && HStep(s, u, m) == Some(s') && t != u
    ensures s'.Pos(t) == s.Pos(t) && s'.mm.At(t) == s.mm.At(t) && s.mm.made <= s'.mm.made
  {
    assert HPosOk(s, u);
    HActs(s, u, m, s');
    var a := HAction(s, u, m);
    if a.Some? {
      MmStepFrame(s.mm, u, a.value, s'.mm);
    }
  }

  /** Not (yet) after the content of a hung download, or on the way to waiting for it. */
  predicate AtHung(p: HPos, id: ObjectID, ch: Chan) {
    p.HIdle? || p.id != id || p == Trying(id) || p == Lost(id, ch) || p == Awaiting(id, ch)
  }

  /** Once a download hangs, who comes for its content neither downloads it nor gets to the end of
      waiting: it never leaves again. */
  lemma {:induction false} NobodyGetsPast(r: seq<HState>, i: nat, j: nat, u: Tid, t: Tid)
    requires IsHRun(r) && i <= j < |r| && r[i].Pos(u).Hung? && AtHung(r[i].Pos(t), r[i].Pos(u).id, r[i].Pos(u).ch)
    ensures AtHung(r[j].Pos(t), r[i].Pos(u).id, r[i].Pos(u).ch)
    decreases j
  {
    if i < j {
      NobodyGetsPast(r, i, j - 1, u, t);
      BlockedForEver(r, i, j - 1, u);
      HRunKeepsInv(r, j - 1);
      assert HNextAt(r, j - 1);
      var v, m :| HStep(r[j - 1], v, m) == Some(r[j]);
      if v != t {
        OthersUntouched(r[j - 1], v, m, r[j], t);
      } else {
        HungIsInTheWay(r[j - 1], t, m, r[j], u);
      }
    }
  }

  lemma HungIsInTheWay(s: HState, t: Tid, m: HMove, s': HState, u: Tid)
    requires HInv(s) && HStep(s, t, m) == Some(s') && s.Pos(u).Hung?
    requires AtHung(s.Pos(t), s.Pos(u).id, s.Pos(u).ch)
    ensures AtHung(s'.Pos(t), s.Pos(u).id, s.Pos(u).ch)
  {
    assert HPosOk(s, t) && HPosOk(s, u) && PendingOk(s.mm, s.Pos(u).ch);
    var q := s.mm.At(t);
    if s.Pos(t).Awaiting? && q.Done? {
      assert PendingOk(s.mm, q.got.value);
    }
  }

  // --- a run that comes to a standstill ---

  /** `t` takes the free lock of `id`. */
  lemma TakesLock(s: HState, t: Tid, id: ObjectID) returns (r: seq<HState>)
    requires s.Pos(t).HIdle? && s.mm.At(t).Done? && s.mm.master.None?
    ensures |r| == 4 && r[0] == s && forall i :: 0 <= i < 3 ==> HNextAt(r, i)
    ensures r[3].Pos(t) == (if id in s.mm.locks then Lost(id, s.mm.locks[id]) else Downloading(id, |s.mm.made|))
    ensures r[3].mm.locks == if id in s.mm.locks then s.mm.locks else s.mm.locks[id := |s.mm.made|]
    ensures r[3].mm.made == if id in s.mm.locks then s.mm.made else s.mm.made + [Made(id, t)]
    ensures r[3].mm.master.None? && r[3].mm.At(t).Done?
    ensures forall u :: u != t ==> r[3].Pos(u) == s.Pos(u) && r[3].mm.At(u) == s.mm.At(u)
  {
    var s1 := HStep(s, t, Come(id)).value;
    var s2 := HStep(s1, t, Proceed).value;
    var s3 := DecidesFirst(s2, t, id);
    r := [s, s1, s2, s3];
    assert HNextAt(r, 0) && HNextAt(r, 1) && HNextAt(r, 2);
  }

  lemma DecidesFirst(s: HState, t: Tid, id: ObjectID) returns (s': HState)
    requires s.Pos(t) == Trying(id) && s.mm.At(t) == InTry(id, false)
    ensures HStep(s, t, Proceed) == Some(s')
    ensures s'.Pos(t) == (if id in s.mm.locks then Lost(id, s.mm.locks[id]) else Downloading(id, |s.mm.made|))
    ensures s'.mm.locks == if id in s.mm.locks then s.mm.locks else s.mm.locks[id := |s.mm.made|]
    ensures s'.mm.made == if id in s.mm.locks then s.mm.made else s.mm.made + [Made(id, t)]
    ensures s'.mm.master.None? && s'.mm.At(t).Done?
    ensures forall u :: u != t ==> s'.Pos(u) == s.Pos(u) && s'.mm.At(u) == s.mm.At(u)
  {
    s' := HStep(s, t, Proceed).value;
  }

  /** `t`, who was not first, goes to sleep. */
  lemma FallsAsleep(s: HState, t: Tid, id: ObjectID) returns (r: seq<HState>)
    requires s.Pos(t).Lost? && s.Pos(t).id == id && s.mm.At(t).Done? && s.mm.master.None? && id in s.mm.locks
    ensures |r| == 4 && r[0] == s && forall i :: 0 <= i < 3 ==> HNextAt(r, i)
    ensures r[3].Pos(t).Awaiting? && r[3].Pos(t).id == id && r[3].mm.At(t) == Waiting(id, s.mm.locks[id])
    ensures r[3].mm.made == s.mm.made && forall u :: u != t ==> r[3].Pos(u) == s.Pos(u)
  {
    var s1 := HStep(s, t, Proceed).value;
    var s2 := HStep(s1, t, Proceed).value;
    var s3 := HStep(s2, t, Proceed).value;
    r := [s, s1, s2, s3];
    assert HNextAt(r, 0) && HNextAt(r, 1) && HNextAt(r, 2);
  }

  lemma JoinHRuns(q: seq<HState>, r: seq<HState>)
    requires IsHRun(q) && |r| > 0 && r[0] == q[|q| - 1] && forall i :: 0 <= i < |r| - 1 ==> HNextAt(r, i)
    ensures IsHRun(q + r[1..]) && (q + r[1..])[|q| + |r| - 2] == r[|r| - 1]
  {
    var q' := q + r[1..];
    forall i | 0 <= i < |q'| - 1
      ensures HNextAt(q', i)
    {
      if i < |q| - 1 {
        assert HNextAt(q, i) && q'[i] == q[i] && q'[i + 1] == q[i + 1];
      } else {
        assert HNextAt(r, i - |q| + 1) && q'[i] == r[i - |q| + 1] && q'[i + 1] == r[i - |q| + 2];
      }
    }
  }

  /** Two threads after one content: the first downloads and hangs, the second waits for it, and after
      ten steps nobody can move. */
  lemma Standstill(id: ObjectID) returns (r: seq<HState>)
    ensures IsHRun(r) && |r| == 11
    ensures var s := r[10]; s.Pos(0).Hung? && s.Pos(1).Awaiting? && !SomeoneInsideMoves(s)
  {
    var a := TakesLock(HStart(), 0, id);
    JoinHRuns([HStart()], a);
    var b := TakesLock(a[3], 1, id);
    JoinHRuns([HStart()] + a[1..], b);
    var hung := HStep(b[3], 0, Hang).value;
    var h := [b[3], hung];
    assert HNextAt(h, 0);
    JoinHRuns([HStart()] + a[1..] + b[1..], h);
    var d := FallsAsleep(hung, 1, id);
    JoinHRuns([HStart()] + a[1..] + b[1..] + h[1..], d);
    r := [HStart()] + a[1..] + b[1..] + h[1..] + d[1..];
    forall t | t > 1
      ensures r[10].Pos(t).HIdle?
    {
      assert hung.Pos(t) == b[3].Pos(t) == a[3].Pos(t) == HIdle;
    }
    assert Blocked(r[10], 0) && Blocked(r[10], 1);
    assert AllInsideBlocked(r[10]);
    NobodyMovesIff(r, 10);
  }
}
