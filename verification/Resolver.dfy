/** `resolveManifest` run by any number of threads: the RAM cache behind `cachedManifestsMu`, and one
    named lock per manifest ID. The steps inside a MutexMap call are those of module MutexMaps. */
module Resolver {
  import opened Wrappers
  import opened ObjectIDs
  import opened MutexMaps

  /** Where a thread is in `resolveManifest`. `V` is the type of resolved manifests. */
  datatype Pos<V> =
    | Idle
    | WantMu(id: ObjectID)                                    // about to take cachedManifestsMu
    | CheckRam(id: ObjectID)                                  // holding it
    | TryingLock(id: ObjectID)                                // holding it, inside TryLock
    | LeaveFound(id: ObjectID, v: V)                          // holding it, about to release it
    | LeaveGot(id: ObjectID, ch: Chan)
    | LeaveBusy(id: ObjectID)
    | Awaiting(id: ObjectID)                                  // inside Lock
    | Passing(id: ObjectID, ch: Chan)                         // inside the unlock that follows it
    | Loading(id: ObjectID, ch: Chan)                         // reading the manifest from cache or origin
    | WantMuToPublish(id: ObjectID, ch: Chan, v: V)
    | Publishing(id: ObjectID, ch: Chan, v: V)                // holding cachedManifestsMu
    | Published(id: ObjectID, ch: Chan, v: V)                 // holding it, the RAM cache is set
    | Unlocking(id: ObjectID, ch: Chan, result: Option<V>)    // inside the deferred unlock
    | Returned(id: ObjectID, result: Option<V>)

  datatype RState<V> = RState(
    mm: State<ObjectID>,
    mu: Option<Tid>,
    ram: map<ObjectID, V>,
    pos: map<Tid, Pos<V>>,
    starts: multiset<ObjectID>,      // loads ever started
    successes: multiset<ObjectID>)   // loads that ever succeeded
  {
    function Pos(t: Tid): Pos<V> {
      if t in pos then pos[t] else Idle
    }

    function Goto(t: Tid, p: Pos<V>): RState<V> {
      this.(pos := pos[t := p])
    }

    /** `t` moves to `p` by doing `a` on the lock map. */
    function Call(t: Tid, a: Action<ObjectID>, p: Pos<V>): Option<RState<V>> {
      match Step(mm, t, a)
      case None => None
      case Some(mm') => Some(Goto(t, p).(mm := mm'))
    }
  }

  datatype Move<V> =
    | Enter(id: ObjectID)
    | LoadEnds(result: Option<V>)
    | Go

  function Start<V>(): RState<V> {
    RState(Init(), None, map[], map[], multiset{}, multiset{})
  }

  function RStep<V(!new)>(s: RState<V>, t: Tid, m: Move<V>): Option<RState<V>> {
    match m
    case Enter(id) => if s.Pos(t).Idle? || s.Pos(t).Returned? then Some(s.Goto(t, WantMu(id))) else None
    case LoadEnds(result) =>
      if !s.Pos(t).Loading? then None
      else
        var Loading(id, ch) := s.Pos(t);
        if result.Some? then
          Some(s.Goto(t, WantMuToPublish(id, ch, result.value)).(successes := s.successes + multiset{id}))
        else s.Call(t, CallUnlock(ch), Unlocking(id, ch, None))
    case Go => GoStep(s, t)
  }

  function GoStep<V(!new)>(s: RState<V>, t: Tid): Option<RState<V>> {
    var p := s.Pos(t);
    match p
    case Idle => None
    case Returned(_, _) => None
    case Loading(_, _) => None
    case WantMu(id) => if s.mu.Some? then None else Some(s.Goto(t, CheckRam(id)).(mu := Some(t)))
    case CheckRam(id) =>
      if id in s.ram then Some(s.Goto(t, LeaveFound(id, s.ram[id])))
      else s.Call(t, CallTryLock(id), TryingLock(id))
    case TryingLock(id) =>
      if !s.mm.At(t).Done? then s.Call(t, Run, p)
      else if s.mm.At(t).got.Some? then Some(s.Goto(t, LeaveGot(id, s.mm.At(t).got.value)))
      else Some(s.Goto(t, LeaveBusy(id)))
    case LeaveFound(id, v) => Some(s.Goto(t, Returned(id, Some(v))).(mu := None))
    case LeaveGot(id, ch) => Some(s.Goto(t, Loading(id, ch)).(mu := None, starts := s.starts + multiset{id}))
    case LeaveBusy(id) => s.(mu := None).Call(t, CallLock(id), Awaiting(id))
    case Awaiting(id) =>
      if !s.mm.At(t).Done? then s.Call(t, Run, p)
      else if s.mm.At(t).got.Some? then s.Call(t, CallUnlock(s.mm.At(t).got.value), Passing(id, s.mm.At(t).got.value))
      else None
    case Passing(id, ch) => if !s.mm.At(t).Done? then s.Call(t, Run, p) else Some(s.Goto(t, WantMu(id)))
    case WantMuToPublish(id, ch, v) =>
      if s.mu.Some? then None else Some(s.Goto(t, Publishing(id, ch, v)).(mu := Some(t)))
    case Publishing(id, ch, v) => Some(s.Goto(t, Published(id, ch, v)).(ram := s.ram[id := v]))
    case Published(id, ch, v) => s.(mu := None).Call(t, CallUnlock(ch), Unlocking(id, ch, Some(v)))
    case Unlocking(id, ch, result) =>
      if !s.mm.At(t).Done? then s.Call(t, Run, p) else Some(s.Goto(t, Returned(id, result)))
  }

  ghost predicate RNext<V(!new)>(s: RState<V>, s': RState<V>) {
    exists t, m :: RStep(s, t, m) == Some(s')
  }

  ghost predicate IsRRun<V(!new)>(r: seq<RState<V>>) {
    |r| > 0 && r[0] == Start() && forall i :: 0 <= i < |r| - 1 ==> RNextAt(r, i)
  }

  ghost predicate RNextAt<V(!new)>(r: seq<RState<V>>, i: nat)
    requires i < |r| - 1
  {
    RNext(r[i], r[i + 1])
  }

  // --- the invariant ---

  /** `t` holds the named lock of `id` through `ch` and has not called its unlock callback. */
  ghost predicate Owned<V(!new)>(s: RState<V>, t: Tid, id: ObjectID, ch: Chan) {
    MadeFor(s.mm, ch, id, t) && ch in s.mm.pending
  }

  ghost predicate InUnlockCall<V(!new)>(s: RState<V>, t: Tid, id: ObjectID, ch: Chan) {
    var p := s.mm.At(t);
    p.Done? || p == WantUnlock(id, ch) || p == InUnlock(id, ch) || p == Deleted(id, ch)
  }

  ghost predicate PosOk<V(!new)>(s: RState<V>, t: Tid) {
    var p := s.mm.At(t);
    match s.Pos(t)
    case Idle => p.Done?
    case WantMu(_) => p.Done?
    case CheckRam(_) => p.Done? && s.mu == Some(t)
    case TryingLock(id) =>
      && s.mu == Some(t) && id !in s.ram
      && (p == WantTry(id, false) || p == InTry(id, false)
          || (p.Done? && (p.got.Some? ==> Owned(s, t, id, p.got.value) && id !in s.successes)))
    case LeaveFound(id, v) => p.Done? && s.mu == Some(t) && id in s.ram && s.ram[id] == v
    case LeaveGot(id, ch) => p.Done? && s.mu == Some(t) && Owned(s, t, id, ch) && id !in s.ram && id !in s.successes
    case LeaveBusy(_) => p.Done? && s.mu == Some(t)
    case Awaiting(id) =>
      || p == WantTry(id, true) || p == InTry(id, true) || (p.Waiting? && p.key == id)
      || (p.Done? && p.got.Some? && Owned(s, t, id, p.got.value))
    case Passing(id, ch) => InUnlockCall(s, t, id, ch)
    case Loading(id, ch) => p.Done? && Owned(s, t, id, ch) && id !in s.ram && id !in s.successes
    case WantMuToPublish(id, ch, v) => p.Done? && Owned(s, t, id, ch) && id !in s.ram && id in s.successes
    case Publishing(id, ch, v) =>
      p.Done? && s.mu == Some(t) && Owned(s, t, id, ch) && id !in s.ram && id in s.successes
    case Published(id, ch, v) => p.Done? && s.mu == Some(t) && Owned(s, t, id, ch) && id in s.ram && s.ram[id] == v
    case Unlocking(id, ch, result) =>
      InUnlockCall(s, t, id, ch) && (result.Some? ==> id in s.ram && s.ram[id] == result.value)
    case Returned(id, result) => p.Done? && (result.Some? ==> id in s.ram && s.ram[id] == result.value)
  }

  predicate HoldsMu<V>(p: Pos<V>) {
    p.CheckRam? || p.TryingLock? || p.LeaveFound? || p.LeaveGot? || p.LeaveBusy? || p.Publishing? || p.Published?
  }

  /** The thread that must call the callback of `ch` knows about it and is not waiting. */
  ghost predicate Carries<V(!new)>(s: RState<V>, t: Tid, ch: Chan) {
    match s.Pos(t)
    case TryingLock(_) => s.mm.At(t) == Done(Some(ch))
    case Awaiting(_) => s.mm.At(t) == Done(Some(ch))
    case LeaveGot(_, c) => c == ch
    case Loading(_, c) => c == ch
    case WantMuToPublish(_, c, _) => c == ch
    case Publishing(_, c, _) => c == ch
    case Published(_, c, _) => c == ch
    case _ => false
  }

  /** A successful load is in RAM, or its loader still holds the named lock. */
  ghost predicate SuccessOk<V(!new)>(s: RState<V>, id: ObjectID) {
    && s.successes[id] == 1
    && (id in s.ram || (
          && id in s.mm.locks && s.mm.locks[id] < |s.mm.made|
          && var p := s.Pos(s.mm.made[s.mm.locks[id]].owner);
             (p.WantMuToPublish? || p.Publishing?) && p.id == id && p.ch == s.mm.locks[id]))
  }

  ghost predicate CarriedOk<V(!new)>(s: RState<V>, ch: Chan) {
    ch < |s.mm.made| && Carries(s, s.mm.made[ch].owner, ch)
  }

  ghost predicate RInv<V(!new)>(s: RState<V>) {
    && Inv(s.mm)
    && (forall t :: PosOk(s, t))
    && (s.mu.Some? ==> HoldsMu(s.Pos(s.mu.value)))
    && (forall ch :: ch in s.mm.pending ==> CarriedOk(s, ch))
    && (forall id :: id in s.successes ==> SuccessOk(s, id))
    && (forall id :: id in s.ram ==> id in s.successes)
  }

  // --- each step keeps it ---

  /** The step of the lock map that `t` doing `m` consists of, if any. */
  function MmAction<V(!new)>(s: RState<V>, t: Tid, m: Move<V>): Option<Action<ObjectID>> {
    var p := s.Pos(t);
    var inCall := !s.mm.At(t).Done?;
    if p.Loading? && m == LoadEnds(None) then Some(CallUnlock(p.ch))
    else if !m.Go? then None
    else if p.CheckRam? && p.id !in s.ram then Some(CallTryLock(p.id))
    else if p.LeaveBusy? then Some(CallLock(p.id))
    else if p.Published? then Some(CallUnlock(p.ch))
    else if (p.TryingLock? || p.Awaiting? || p.Passing? || p.Unlocking?) && inCall then Some(Run)
    else if p.Awaiting? && s.mm.At(t).got.Some? then Some(CallUnlock(s.mm.At(t).got.value))
    else None
  }

  lemma MmMoves<V(!new)>(s: RState<V>, t: Tid, m: Move<V>, s': RState<V>)
    requires RStep(s, t, m) == Some(s')
    ensures var a := MmAction(s, t, m);
            if a.None? then s'.mm == s.mm else Step(s.mm, t, a.value) == Some(s'.mm)
  {
  }

  /** Two callbacks not yet called are for different keys. */
  lemma OneOwner<V(!new)>(s: RState<V>, t: Tid, u: Tid, id: ObjectID, c: Chan, d: Chan)
    requires Inv(s.mm) && Owned(s, t, id, c) && Owned(s, u, id, d)
    ensures t == u && c == d
  {
    assert PendingOk(s.mm, c) && PendingOk(s.mm, d);
  }

  lemma TryingRunOk<V(!new)>(s: RState<V>, t: Tid, m: Move<V>, s': RState<V>)
    requires PosOk(s, t) && PcOk(s.mm, t) && RStep(s, t, m) == Some(s') && MmAction(s, t, m) == Some(Run)
    requires s.Pos(t).TryingLock? && (s.Pos(t).id in s.successes ==> s.Pos(t).id in s.mm.locks)
    ensures PosOk(s', t)
  {
  }

  lemma OwnRunOk<V(!new)>(s: RState<V>, t: Tid, m: Move<V>, s': RState<V>)
    requires PosOk(s, t) && PcOk(s.mm, t) && RStep(s, t, m) == Some(s') && MmAction(s, t, m) == Some(Run)
    requires !s.Pos(t).TryingLock?
    ensures PosOk(s', t)
  {
  }

  lemma OwnUnlockCallOk<V(!new)>(s: RState<V>, t: Tid, m: Move<V>, s': RState<V>)
    requires PosOk(s, t) && PcOk(s.mm, t) && RStep(s, t, m) == Some(s') && MmAction(s, t, m).Some?
    requires MmAction(s, t, m).value.CallUnlock?
    ensures PosOk(s', t)
  {
  }

  lemma OwnCallOk<V(!new)>(s: RState<V>, t: Tid, m: Move<V>, s': RState<V>)
    requires PosOk(s, t) && PcOk(s.mm, t) && RStep(s, t, m) == Some(s') && MmAction(s, t, m).Some?
    requires MmAction(s, t, m) != Some(Run)
    ensures PosOk(s', t)
  {
    if MmAction(s, t, m).value.CallUnlock? { OwnUnlockCallOk(s, t, m, s'); }
  }

  lemma OwnLocalOk<V(!new)>(s: RState<V>, t: Tid, m: Move<V>, s': RState<V>)
    requires PosOk(s, t) && RStep(s, t, m) == Some(s') && MmAction(s, t, m).None?
    ensures PosOk(s', t)
  {
    MmMoves(s, t, m, s');
  }

  lemma OwnPosOk<V(!new)>(s: RState<V>, t: Tid, m: Move<V>, s': RState<V>)
    requires RInv(s) && RStep(s, t, m) == Some(s')
    ensures PosOk(s', t)
  {
    assert PosOk(s, t) && PcOk(s.mm, t);
    var a := MmAction(s, t, m);
    if a.None? {
      OwnLocalOk(s, t, m, s');
    } else if a != Some(Run) {
      OwnCallOk(s, t, m, s');
    } else if s.Pos(t).TryingLock? {
      var id := s.Pos(t).id;
      assert id in s.successes ==> SuccessOk(s, id);
      TryingRunOk(s, t, m, s');
    } else {
      OwnRunOk(s, t, m, s');
    }
  }

  /** `t` is about to change what is known about `id`, which needs the lock `u` might hold. */
  ghost predicate Settles<V>(p: Pos<V>, id: ObjectID) {
    (p.Publishing? || p.Loading?) && p.id == id
  }

  /** What a thread's step leaves alone. */
  ghost predicate RFrame<V(!new)>(s: RState<V>, t: Tid, s': RState<V>) {
    && MmFrame(s.mm, t, s'.mm)
    && (forall u :: u != t ==> s'.Pos(u) == s.Pos(u))
    && (s.mu.Some? && s.mu != Some(t) ==> s'.mu == s.mu)
    && (forall id :: id in s.ram ==> id in s'.ram && s'.ram[id] == s.ram[id])
    && (forall id :: id in s'.ram && id !in s.ram ==> s.Pos(t).Publishing? && s.Pos(t).id == id)
    && (forall id :: s'.successes[id] == s.successes[id] || (s.Pos(t).Loading? && s.Pos(t).id == id))
    && (forall id :: id in s.successes ==> id in s'.successes)
  }

  lemma GoFrame<V(!new)>(s: RState<V>, t: Tid, s': RState<V>)
    requires PosOk(s, t) && GoStep(s, t) == Some(s') && MmFrame(s.mm, t, s'.mm)
    ensures RFrame(s, t, s')
  {
  }

  lemma RStepFrame<V(!new)>(s: RState<V>, t: Tid, m: Move<V>, s': RState<V>)
    requires PosOk(s, t) && RStep(s, t, m) == Some(s') && MmFrame(s.mm, t, s'.mm)
    ensures RFrame(s, t, s')
  {
    if m.Go? { GoFrame(s, t, s'); }
  }

  lemma OtherPosOk<V(!new)>(s: RState<V>, t: Tid, s': RState<V>, u: Tid)
    requires PosOk(s, u) && RFrame(s, t, s') && u != t
    requires forall id, ch :: Settles(s.Pos(t), id) ==> !Owned(s, u, id, ch)
    requires s.Pos(t).Publishing? ==> s.mu == Some(t)
    ensures PosOk(s', u)
  {
    assert s'.Pos(u) == s.Pos(u) && s'.mm.At(u) == s.mm.At(u);
  }

  lemma CarriedByOther<V(!new)>(s: RState<V>, t: Tid, s': RState<V>, ch: Chan)
    requires RFrame(s, t, s') && CarriedOk(s, ch) && s.mm.made[ch].owner != t
    ensures CarriedOk(s', ch)
  {
    var u := s.mm.made[ch].owner;
    assert s'.mm.At(u) == s.mm.At(u) && s'.Pos(u) == s.Pos(u);
  }

  lemma RunOnly<V(!new)>(s: RState<V>, t: Tid, m: Move<V>, s': RState<V>)
    requires RStep(s, t, m) == Some(s') && MmAction(s, t, m) == Some(Run)
    ensures !s.mm.At(t).Done? && RunStep(s.mm, t) == Some(s'.mm) && s'.Pos(t) == s.Pos(t)
  {
  }

  lemma CarriedByRunner<V(!new)>(s: RState<V>, t: Tid, s': RState<V>, ch: Chan)
    requires PosOk(s, t) && PcOk(s.mm, t) && MmFrame(s.mm, t, s'.mm)
    requires !s.mm.At(t).Done? && RunStep(s.mm, t) == Some(s'.mm) && s'.Pos(t) == s.Pos(t)
    requires ch in s'.mm.pending && (ch in s.mm.pending ==> CarriedOk(s, ch) && s.mm.made[ch].owner == t)
    ensures CarriedOk(s', ch)
  {
  }

  lemma CarriedLocally<V(!new)>(s: RState<V>, t: Tid, s': RState<V>, ch: Chan)
    requires PosOk(s, t) && GoStep(s, t) == Some(s') && MmAction(s, t, Go).None?
    requires ch in s.mm.pending && CarriedOk(s, ch) && s.mm.made[ch].owner == t && s'.mm == s.mm
    ensures CarriedOk(s', ch)
  {
  }

  /** Who begins a call on the lock map carries nothing afterwards. */
  lemma CallerCarriesNothing<V(!new)>(s: RState<V>, t: Tid, s': RState<V>, ch: Chan)
    requires PosOk(s, t) && PcOk(s.mm, t) && GoStep(s, t) == Some(s') && MmFrame(s.mm, t, s'.mm)
    requires MmAction(s, t, Go).Some? && MmAction(s, t, Go) != Some(Run)
    requires ch in s.mm.pending ==> CarriedOk(s, ch) && s.mm.made[ch].owner == t
    ensures ch !in s'.mm.pending
  {
  }

  lemma CarriedBySelf<V(!new)>(s: RState<V>, t: Tid, m: Move<V>, s': RState<V>, ch: Chan)
    requires PosOk(s, t) && PcOk(s.mm, t) && RStep(s, t, m) == Some(s') && MmFrame(s.mm, t, s'.mm)
    requires MmAction(s, t, m) != Some(Run)
    requires ch in s'.mm.pending && (ch in s.mm.pending ==> CarriedOk(s, ch) && s.mm.made[ch].owner == t)
    ensures CarriedOk(s', ch)
  {
    if m.Go? {
      MmMoves(s, t, m, s');
      if MmAction(s, t, m).Some? {
        CallerCarriesNothing(s, t, s', ch);
        assert false;
      }
      CarriedLocally(s, t, s', ch);
    }
  }

  lemma SuccessOfOther<V(!new)>(s: RState<V>, t: Tid, s': RState<V>, id: ObjectID)
    requires PosOk(s, t) && RFrame(s, t, s') && id in s.successes && SuccessOk(s, id)
    requires id in s.ram || (s.mm.made[s.mm.locks[id]].owner != t && LockKept(s.mm, t, s'.mm, id))
    requires PcOk(s.mm, t)
    ensures SuccessOk(s', id)
  {
  }

  lemma SuccessOfSelf<V(!new)>(s: RState<V>, t: Tid, m: Move<V>, s': RState<V>, id: ObjectID)
    requires PosOk(s, t) && RFrame(s, t, s') && RStep(s, t, m) == Some(s') && id in s.successes && SuccessOk(s, id)
    requires id !in s.ram && s.mm.made[s.mm.locks[id]].owner == t && LockKept(s.mm, t, s'.mm, id)
    ensures SuccessOk(s', id)
  {
  }

  /** A locked key stays locked through the same channel unless the step deletes it for its own owner. */
  predicate LockKept(mm: State<ObjectID>, t: Tid, mm': State<ObjectID>, id: ObjectID) {
    id in mm.locks ==> (id in mm'.locks && mm'.locks[id] == mm.locks[id]) || mm.At(t) == InUnlock(id, mm.locks[id])
  }

  lemma LockIsKept(mm: State<ObjectID>, t: Tid, a: Action<ObjectID>, mm': State<ObjectID>, id: ObjectID)
    requires PcOk(mm, t) && Step(mm, t, a) == Some(mm')
    ensures LockKept(mm, t, mm', id)
  {
  }

  lemma NewSuccessOk<V(!new)>(s: RState<V>, t: Tid, m: Move<V>, s': RState<V>, id: ObjectID)
    requires RInv(s) && RStep(s, t, m) == Some(s')
    requires id !in s.successes && id in s'.successes
    ensures SuccessOk(s', id)
  {
    assert PosOk(s, t);
    var ch := s.Pos(t).ch;
    assert PendingOk(s.mm, ch);
  }

  lemma RStepFrames<V(!new)>(s: RState<V>, t: Tid, m: Move<V>, s': RState<V>)
    requires RInv(s) && RStep(s, t, m) == Some(s')
    ensures Inv(s'.mm) && RFrame(s, t, s') && forall id :: LockKept(s.mm, t, s'.mm, id)
  {
    assert PosOk(s, t) && PcOk(s.mm, t);
    MmMoves(s, t, m, s');
    var a := MmAction(s, t, m);
    if a.Some? {
      StepKeepsInv(s.mm, t, a.value, s'.mm);
      MmStepFrame(s.mm, t, a.value, s'.mm);
      forall id
        ensures LockKept(s.mm, t, s'.mm, id)
      {
        LockIsKept(s.mm, t, a.value, s'.mm, id);
      }
    }
    RStepFrame(s, t, m, s');
  }

  lemma CarriedStaysOk<V(!new)>(s: RState<V>, t: Tid, m: Move<V>, s': RState<V>, ch: Chan)
    requires RInv(s) && RStep(s, t, m) == Some(s') && RFrame(s, t, s') && ch in s'.mm.pending
    ensures CarriedOk(s', ch)
  {
    assert PosOk(s, t) && PcOk(s.mm, t);
    if ch in s.mm.pending && s.mm.made[ch].owner != t {
      CarriedByOther(s, t, s', ch);
    } else if MmAction(s, t, m) == Some(Run) {
      RunOnly(s, t, m, s');
      CarriedByRunner(s, t, s', ch);
    } else {
      CarriedBySelf(s, t, m, s', ch);
    }
  }

  lemma SuccessStaysOk<V(!new)>(s: RState<V>, t: Tid, m: Move<V>, s': RState<V>, id: ObjectID)
    requires RInv(s) && RStep(s, t, m) == Some(s') && RFrame(s, t, s') && LockKept(s.mm, t, s'.mm, id)
    requires id in s'.successes
    ensures SuccessOk(s', id)
  {
    assert PosOk(s, t) && PcOk(s.mm, t);
    if id !in s.successes {
      NewSuccessOk(s, t, m, s', id);
    } else {
      assert SuccessOk(s, id);
      if id in s.ram || s.mm.made[s.mm.locks[id]].owner != t {
        SuccessOfOther(s, t, s', id);
      } else {
        SuccessOfSelf(s, t, m, s', id);
      }
    }
  }

  lemma RStepKeepsInv<V(!new)>(s: RState<V>, t: Tid, m: Move<V>, s': RState<V>)
    requires RInv(s) && RStep(s, t, m) == Some(s')
    ensures RInv(s') && RFrame(s, t, s')
  {
    assert PosOk(s, t);
    RStepFrames(s, t, m, s');
    OwnPosOk(s, t, m, s');
    OthersPosOk(s, t, s');
    MuStaysOk(s, t, m, s');
    forall ch | ch in s'.mm.pending
      ensures CarriedOk(s', ch)
    {
      CarriedStaysOk(s, t, m, s', ch);
    }
    forall id | id in s'.successes
      ensures SuccessOk(s', id)
    {
      SuccessStaysOk(s, t, m, s', id);
    }
    assert PosOk(s, t);
  }

  lemma OthersPosOk<V(!new)>(s: RState<V>, t: Tid, s': RState<V>)
    requires RInv(s) && RFrame(s, t, s') && PosOk(s', t)
    ensures forall u :: PosOk(s', u)
  {
    assert PosOk(s, t);
    forall u
      ensures PosOk(s', u)
    {
      if u != t {
        assert PosOk(s, u);
        forall id, ch | Settles(s.Pos(t), id)
          ensures !Owned(s, u, id, ch)
        {
          if Owned(s, u, id, ch) { OneOwner(s, t, u, id, s.Pos(t).ch, ch); }
        }
        OtherPosOk(s, t, s', u);
      }
    }
  }

  lemma MuStaysOk<V(!new)>(s: RState<V>, t: Tid, m: Move<V>, s': RState<V>)
    requires PosOk(s, t) && RStep(s, t, m) == Some(s')
    requires s.mu.Some? ==> HoldsMu(s.Pos(s.mu.value))
    ensures s'.mu.Some? ==> HoldsMu(s'.Pos(s'.mu.value))
  {
    MmMoves(s, t, m, s');
  }

  lemma {:induction false} RRunKeepsInv<V(!new)>(r: seq<RState<V>>, i: nat)
    requires IsRRun(r) && i < |r|
    ensures RInv(r[i])
  {
    if i > 0 {
      RRunKeepsInv(r, i - 1);
      assert RNextAt(r, i - 1);
      RNextKeepsInv(r[i - 1], r[i]);
    }
  }

  lemma RNextKeepsInv<V(!new)>(s: RState<V>, s': RState<V>)
    requires RInv(s) && RNext(s, s')
    ensures RInv(s')
  {
    var t, m :| RStep(s, t, m) == Some(s');
    RStepKeepsInv(s, t, m, s');
  }

  // --- what it gives, in every reachable state of every run ---

  lemma LoadsNeverOverlap<V(!new)>(r: seq<RState<V>>, i: nat, t: Tid, u: Tid)
    requires IsRRun(r) && i < |r| && r[i].Pos(t).Loading? && r[i].Pos(u).Loading?
    requires r[i].Pos(t).id == r[i].Pos(u).id
    ensures t == u
  {
    RRunKeepsInv(r, i);
    assert PosOk(r[i], t) && PosOk(r[i], u);
    OneOwner(r[i], t, u, r[i].Pos(t).id, r[i].Pos(t).ch, r[i].Pos(u).ch);
  }

  lemma AtMostOneSuccess<V(!new)>(r: seq<RState<V>>, i: nat, id: ObjectID)
    requires IsRRun(r) && i < |r|
    ensures r[i].successes[id] <= 1
    ensures id in r[i].ram ==> r[i].successes[id] == 1
  {
    RRunKeepsInv(r, i);
    assert id in r[i].successes ==> SuccessOk(r[i], id);
  }

  ghost predicate ForGood<V>(s: RState<V>, s': RState<V>, id: ObjectID) {
    && (id in s.ram ==> id in s'.ram && s'.ram[id] == s.ram[id])
    && (id in s.successes ==> id in s'.successes && s'.starts[id] == s.starts[id])
  }

  /** What is in RAM stays, unchanged; and once a load of `id` has succeeded no other is started. */
  lemma {:induction false} LoadedForGood<V(!new)>(r: seq<RState<V>>, i: nat, j: nat, id: ObjectID)
    requires IsRRun(r) && i <= j < |r|
    ensures ForGood(r[i], r[j], id)
  {
    if i < j {
      LoadedForGood(r, i, j - 1, id);
      RRunKeepsInv(r, j - 1);
      assert RNextAt(r, j - 1);
      NextForGood(r[j - 1], r[j], id);
    }
  }

  lemma NextForGood<V(!new)>(s: RState<V>, s': RState<V>, id: ObjectID)
    requires RInv(s) && RNext(s, s')
    ensures ForGood(s, s', id)
  {
    var t, m :| RStep(s, t, m) == Some(s');
    RStepKeepsInv(s, t, m, s');
    assert PosOk(s, t);
    StartsGrowth(s, t, m, s', id);
  }

  lemma StartsGrowth<V(!new)>(s: RState<V>, t: Tid, m: Move<V>, s': RState<V>, id: ObjectID)
    requires RStep(s, t, m) == Some(s')
    ensures s'.starts[id] == s.starts[id] || (s.Pos(t).LeaveGot? && s.Pos(t).id == id)
  {
  }

  /** Everyone who ever resolves `id` gets the same manifest. */
  lemma Agreement<V(!new)>(r: seq<RState<V>>, i: nat, t: Tid, j: nat, u: Tid)
    requires IsRRun(r) && i <= j < |r|
    requires r[i].Pos(t).Returned? && r[i].Pos(t).result.Some?
    requires r[j].Pos(u).Returned? && r[j].Pos(u).result.Some?
    requires r[i].Pos(t).id == r[j].Pos(u).id
    ensures r[i].Pos(t).result == r[j].Pos(u).result
  {
    RRunKeepsInv(r, i);
    RRunKeepsInv(r, j);
    LoadedForGood(r, i, j, r[i].Pos(t).id);
    assert PosOk(r[i], t) && PosOk(r[j], u);
  }

  /** `t` has come out of resolveManifest, or is coming out, with an error. */
  predicate WithoutResult<V>(p: Pos<V>, id: ObjectID) {
    (p.Unlocking? || p.Returned?) && p.id == id && p.result.None?
  }

  /** In this step `t` itself ends a load of `id`, with an error. */
  ghost predicate LoadFails<V(!new)>(s: RState<V>, t: Tid, s': RState<V>, id: ObjectID) {
    s.Pos(t).Loading? && s.Pos(t).id == id && RStep(s, t, LoadEnds(None)) == Some(s')
  }

  ghost predicate LoadFailsAt<V(!new)>(r: seq<RState<V>>, k: nat, t: Tid, id: ObjectID)
    requires k < |r| - 1
  {
    LoadFails(r[k], t, r[k + 1], id)
  }

  /** A resolution fails only by a load of its own that failed, and nothing was tried since then: who
      waits for another's load tries again when that has failed, and finds its result when it has not. */
  lemma {:induction false} FailsOnlyByOwnLoad<V(!new)>(r: seq<RState<V>>, i: nat, t: Tid, id: ObjectID) returns (k: nat)
    requires IsRRun(r) && i < |r| && WithoutResult(r[i].Pos(t), id)
    ensures k < i && LoadFailsAt(r, k, t, id)
    ensures forall j :: k < j <= i ==> WithoutResult(r[j].Pos(t), id)
  {
    assert RNextAt(r, i - 1);
    NextWithoutResult(r[i - 1], r[i], t, id);
    if WithoutResult(r[i - 1].Pos(t), id) {
      k := FailsOnlyByOwnLoad(r, i - 1, t, id);
    } else {
      k := i - 1;
    }
  }

  lemma NextWithoutResult<V(!new)>(s: RState<V>, s': RState<V>, t: Tid, id: ObjectID)
    requires RNext(s, s') && WithoutResult(s'.Pos(t), id)
    ensures WithoutResult(s.Pos(t), id) || LoadFails(s, t, s', id)
  {
    var u, m :| RStep(s, u, m) == Some(s');
    NoResultFrom(s, u, m, s', t, id);
  }

  lemma NoResultFrom<V(!new)>(s: RState<V>, u: Tid, m: Move<V>, s': RState<V>, t: Tid, id: ObjectID)
    requires RStep(s, u, m) == Some(s') && WithoutResult(s'.Pos(t), id)
    ensures WithoutResult(s.Pos(t), id) || LoadFails(s, t, s', id)
  {
    if u == t && m.Go? {
      GoGivesResult(s, t, s', id);
    }
  }

  lemma GoGivesResult<V(!new)>(s: RState<V>, t: Tid, s': RState<V>, id: ObjectID)
    requires GoStep(s, t) == Some(s') && WithoutResult(s'.Pos(t), id)
    ensures WithoutResult(s.Pos(t), id)
  {
  }

  /** Who asks for a manifest that some load has brought gets it. */
  lemma LoadedIsFound<V(!new)>(r: seq<RState<V>>, i: nat, j: nat, t: Tid, id: ObjectID)
    requires IsRRun(r) && i <= j < |r| && id in r[i].successes
    requires r[i].Pos(t) == WantMu(id) && r[j].Pos(t).Returned? && r[j].Pos(t).id == id
    ensures r[j].Pos(t).result.Some?
  {
    if r[j].Pos(t).result.None? {
      var k := FailsOnlyByOwnLoad(r, j, t, id);
      LoadsOnlyUnknown(r, k, t);
      if i <= k {
        LoadedForGood(r, i, k, id);
      }
      assert false;
    }
  }

  lemma LoadsOnlyUnknown<V(!new)>(r: seq<RState<V>>, i: nat, t: Tid)
    requires IsRRun(r) && i < |r| && r[i].Pos(t).Loading?
    ensures r[i].Pos(t).id !in r[i].successes && r[i].Pos(t).id !in r[i].ram
  {
    RRunKeepsInv(r, i);
    assert PosOk(r[i], t);
  }

  predicate Unfinished<V>(p: Pos<V>) {
    !p.Idle? && !p.Returned?
  }

  /** Some thread inside `resolveManifest` can move; one that is reading the manifest can end its read. */
  ghost predicate SomeoneCanMove<V(!new)>(s: RState<V>) {
    exists t :: Unfinished(s.Pos(t)) && (RStep(s, t, Go).Some? || RStep(s, t, LoadEnds(None)).Some?)
  }

  lemma DeadlockFree<V(!new)>(r: seq<RState<V>>, i: nat, t: Tid)
    requires IsRRun(r) && i < |r| && Unfinished(r[i].Pos(t))
    ensures SomeoneCanMove(r[i])
  {
    RRunKeepsInv(r, i);
    var s := r[i];
    assert PosOk(s, t) && PcOk(s.mm, t);
    if s.mm.master.Some? {
      MasterHolderMoves(s, s.mm.master.value);
    } else if s.mu.Some? {
      MuHolderMoves(s, s.mu.value);
    } else if s.Pos(t).Awaiting? && s.mm.At(t).Waiting? && s.mm.At(t).ch !in s.mm.closed {
      assert PcOk(s.mm, s.mm.made[s.mm.At(t).ch].owner);
      LockHolderMoves(s, s.mm.made[s.mm.At(t).ch].owner, s.mm.At(t).key, s.mm.At(t).ch);
    } else {
      OthersMove(s, t);
    }
  }

  lemma MasterHolderMoves<V(!new)>(s: RState<V>, t: Tid)
    requires RInv(s) && s.mm.master == Some(t)
    ensures SomeoneCanMove(s)
  {
    assert PosOk(s, t) && RunStep(s.mm, t).Some?;
    assert Unfinished(s.Pos(t)) && RStep(s, t, Go).Some?;
  }

  lemma MuHolderMoves<V(!new)>(s: RState<V>, t: Tid)
    requires RInv(s) && s.mm.master.None? && s.mu == Some(t)
    ensures SomeoneCanMove(s)
  {
    assert PosOk(s, t);
    assert Unfinished(s.Pos(t)) && RStep(s, t, Go).Some?;
  }

  lemma LockHolderMoves<V(!new)>(s: RState<V>, t: Tid, id: ObjectID, ch: Chan)
    requires RInv(s) && s.mm.master.None? && s.mu.None?
    requires Live(s.mm, id, ch) && s.mm.made[ch].owner == t
    ensures SomeoneCanMove(s)
  {
    assert PosOk(s, t) && LockOk(s.mm, id, ch);
    if ch in s.mm.pending {
      assert CarriedOk(s, ch);
      assert Unfinished(s.Pos(t)) && (RStep(s, t, Go).Some? || RStep(s, t, LoadEnds(None)).Some?);
    } else {
      assert Unfinished(s.Pos(t)) && RStep(s, t, Go).Some?;
    }
  }

  lemma OthersMove<V(!new)>(s: RState<V>, t: Tid)
    requires RInv(s) && s.mm.master.None? && s.mu.None? && Unfinished(s.Pos(t))
    requires s.Pos(t).Awaiting? && s.mm.At(t).Waiting? ==> s.mm.At(t).ch in s.mm.closed
    ensures SomeoneCanMove(s)
  {
    assert PosOk(s, t);
    assert RStep(s, t, Go).Some? || RStep(s, t, LoadEnds(None)).Some?;
  }
}
