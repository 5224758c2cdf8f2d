/** Named locks: one mutex (`masterMu`) over a map from key to a channel that is closed on unlock. */
module MutexMaps {
  import opened Wrappers

  /** A channel's identity: how many channels were made before it. */
  type Chan = nat

  type Tid = nat

  /** The lock map after `tryLockInternal(key)`, where `ch` is the channel it would make. */
  function LocksAfterTry<K>(locks: map<K, Chan>, key: K, ch: Chan): map<K, Chan> {
    if key in locks then locks else locks[key := ch]
  }

  /** The object itself. Every method body runs under `masterMu`; an unlock callback is
      represented by the key and the channel its closure captured. */
  class MutexMap {
    var locks: map<string, Chan>
    var made: nat
    var closed: set<Chan>

    /** Live channels are pairwise different, were made here and are still open. */
    ghost predicate Valid()
      reads this
    {
      && (forall k :: k in locks ==> locks[k] < made && locks[k] !in closed)
      && (forall k, l :: k in locks && l in locks && locks[k] == locks[l] ==> k == l)
      && (forall c :: c in closed ==> c < made)
    }

    constructor ()
      ensures Valid() && locks == map[] && made == 0 && closed == {}
    {
      locks, made, closed := map[], 0, {};
    }

    /** Exactly one of the results is set: the channel of the new lock, or the one to wait on. */
    method TryLockInternal(key: string) returns (unlock: Option<Chan>, tryAgain: Option<Chan>)
      requires Valid()
      modifies this
      ensures Valid() && closed == old(closed)
      ensures locks == LocksAfterTry(old(locks), key, old(made))
      ensures unlock == (if key in old(locks) then None else Some(old(made)))
      ensures tryAgain == (if key in old(locks) then Some(old(locks)[key]) else None)
      ensures made == old(made) + (if unlock.Some? then 1 else 0)
    {
      if key in locks {
        return None, Some(locks[key]);
      }
      unlock, tryAgain := Some(made), None;
      locks := locks[key := made];
      made := made + 1;
    }

    method TryLock(key: string) returns (unlock: Option<Chan>, ok: bool)
      requires Valid()
      modifies this
      ensures Valid() && closed == old(closed)
      ensures locks == LocksAfterTry(old(locks), key, old(made))
      ensures ok == (key !in old(locks)) && unlock == if ok then Some(old(made)) else None
      ensures made == old(made) + (if ok then 1 else 0)
    {
      var tryAgain;
      unlock, tryAgain := TryLockInternal(key);
      ok := tryAgain.None?;
    }

    /** The callback: frees the key, then wakes everyone waiting on its channel. The requires is
        "called at most once". */
    method Unlock(key: string, ch: Chan)
      requires Valid() && key in locks && locks[key] == ch
      modifies this
      ensures Valid() && made == old(made)
      ensures locks == old(locks) - {key} && closed == old(closed) + {ch}
      ensures ch !in old(closed)
    {
      locks := locks - {key};
      closed := closed + {ch};
    }

    /** Locking and unlocking leaves every other key as it was, and wakes its own waiters only. */
    method LockThenUnlock(key: string)
      requires Valid()
      modifies this
      ensures Valid() && locks == old(locks)
      ensures closed == old(closed) + (if key in old(locks) then {} else {old(made)})
    {
      var unlock, ok := TryLock(key);
      if ok {
        Unlock(key, unlock.value);
        assert locks == old(locks);
      }
    }
  }

  // --- all interleavings of any number of threads ---

  datatype Made<K> = Made(key: K, owner: Tid)

  /** Where a thread is inside the calls of the map. */
  datatype Pc<K> =
    | Done(got: Option<Chan>)          // in no call; the last one obtained this lock, if any
    | WantTry(key: K, blocking: bool)  // in TryLock (or Lock, if blocking), about to take masterMu
    | InTry(key: K, blocking: bool)    // holding masterMu
    | Waiting(key: K, ch: Chan)        // in Lock, blocked until ch is closed
    | WantUnlock(key: K, ch: Chan)     // in the callback, about to take masterMu
    | InUnlock(key: K, ch: Chan)       // holding masterMu, about to delete
    | Deleted(key: K, ch: Chan)        // holding masterMu, about to close

  datatype State<K(==)> = State(
    locks: map<K, Chan>,
    made: seq<Made<K>>,        // every channel ever made
    pending: set<Chan>,        // unlock callbacks not called yet
    closed: multiset<Chan>,    // one entry per close()
    closer: map<Chan, Tid>,
    master: Option<Tid>,
    pc: map<Tid, Pc<K>>)
  {
    function At(t: Tid): Pc<K> {
      if t in pc then pc[t] else Done(None)
    }

    function Goto(t: Tid, p: Pc<K>): State<K> {
      this.(pc := pc[t := p])
    }
  }

  datatype Action<K> =
    | CallTryLock(key: K)
    | CallLock(key: K)
    | CallUnlock(ch: Chan)
    | Run                      // the thread's next step inside its call

  function Init<K>(): State<K> {
    State(map[], [], {}, multiset{}, map[], None, map[])
  }

  /** The only possible effect of thread `t` doing `a`, or None if it cannot. */
  function Step<K(!new)>(s: State<K>, t: Tid, a: Action<K>): Option<State<K>> {
    match a
    case CallTryLock(key) => if s.At(t).Done? then Some(s.Goto(t, WantTry(key, false))) else None
    case CallLock(key) => if s.At(t).Done? then Some(s.Goto(t, WantTry(key, true))) else None
    case CallUnlock(ch) =>
      if s.At(t).Done? && ch in s.pending && ch < |s.made| && s.made[ch].owner == t then
        Some(s.Goto(t, WantUnlock(s.made[ch].key, ch)).(pending := s.pending - {ch}))
      else None
    case Run => RunStep(s, t)
  }

  function RunStep<K(!new)>(s: State<K>, t: Tid): Option<State<K>> {
    match s.At(t)
    case Done(_) => None
    case WantTry(key, blocking) =>
      if s.master.Some? then None else Some(s.Goto(t, InTry(key, blocking)).(master := Some(t)))
    case InTry(key, blocking) =>
      var n := |s.made|;
      if key in s.locks then
        Some(s.Goto(t, if blocking then Waiting(key, s.locks[key]) else Done(None)).(master := None))
      else
        Some(s.Goto(t, Done(Some(n))).(locks := LocksAfterTry(s.locks, key, n), made := s.made + [Made(key, t)],
                                       pending := s.pending + {n}, master := None))
    case Waiting(key, ch) => if ch in s.closed then Some(s.Goto(t, WantTry(key, true))) else None
    case WantUnlock(key, ch) =>
      if s.master.Some? then None else Some(s.Goto(t, InUnlock(key, ch)).(master := Some(t)))
    case InUnlock(key, ch) => Some(s.Goto(t, Deleted(key, ch)).(locks := s.locks - {key}))
    case Deleted(key, ch) =>
      Some(s.Goto(t, Done(None)).(closed := s.closed + multiset{ch}, closer := s.closer[ch := t], master := None))
  }

  /** A step moves only its own thread. */
  lemma OthersStay<K(!new)>(s: State<K>, t: Tid, a: Action<K>, s': State<K>, u: Tid)
    requires Step(s, t, a) == Some(s') && u != t
    ensures s'.At(u) == s.At(u)
  {
  }

  /** A callback stays uncalled until its owner moves, and new ones belong to whoever moves. */
  lemma PendingFrame<K(!new)>(s: State<K>, t: Tid, a: Action<K>, s': State<K>)
    requires Step(s, t, a) == Some(s')
    ensures s.made <= s'.made
    ensures forall ch :: ch in s.pending && ch < |s.made| && s.made[ch].owner != t ==> ch in s'.pending
    ensures forall ch :: ch in s'.pending && ch !in s.pending ==> ch < |s'.made| && s'.made[ch].owner == t
  {
  }

  /** What a thread's step leaves alone. */
  ghost predicate MmFrame<K(!new)>(mm: State<K>, t: Tid, mm': State<K>) {
    && mm.made <= mm'.made
    && (forall u :: u != t ==> mm'.At(u) == mm.At(u))
    && (forall ch :: ch in mm.pending && ch < |mm.made| && mm.made[ch].owner != t ==> ch in mm'.pending)
    && (forall ch :: ch in mm'.pending && ch !in mm.pending ==> ch < |mm'.made| && mm'.made[ch].owner == t)
  }

  lemma MmStepFrame<K(!new)>(mm: State<K>, t: Tid, a: Action<K>, mm': State<K>)
    requires Step(mm, t, a) == Some(mm')
    ensures MmFrame(mm, t, mm')
  {
    forall u | u != t
      ensures mm'.At(u) == mm.At(u)
    {
      OthersStay(mm, t, a, mm', u);
    }
    PendingFrame(mm, t, a, mm');
  }

  /** The channel was once made for the key, and is its lock no more. */
  predicate IsOver<K(!new)>(mm: State<K>, key: K, ch: Chan) {
    ch < |mm.made| && mm.made[ch].key == key && !Live(mm, key, ch)
  }

  /** ... which is for ever: later locks have other channels. */
  lemma OverForEver<K(!new)>(mm: State<K>, t: Tid, a: Action<K>, mm': State<K>, key: K, ch: Chan)
    requires Step(mm, t, a) == Some(mm') && IsOver(mm, key, ch)
    ensures IsOver(mm', key, ch)
  {
  }

  ghost predicate Next<K(!new)>(s: State<K>, s': State<K>) {
    exists t, a :: Step(s, t, a) == Some(s')
  }

  ghost predicate IsRun<K(!new)>(r: seq<State<K>>) {
    |r| > 0 && r[0] == Init() && forall i :: 0 <= i < |r| - 1 ==> NextAt(r, i)
  }

  ghost predicate NextAt<K(!new)>(r: seq<State<K>>, i: nat)
    requires i < |r| - 1
  {
    Next(r[i], r[i + 1])
  }

  // --- the invariant ---

  predicate Live<K(!new)>(s: State<K>, key: K, ch: Chan) {
    key in s.locks && s.locks[key] == ch
  }

  predicate MadeFor<K(!new)>(s: State<K>, ch: Chan, key: K, t: Tid) {
    ch < |s.made| && s.made[ch] == Made(key, t)
  }

  predicate LockOk<K(!new)>(s: State<K>, key: K, ch: Chan) {
    && ch < |s.made| && s.made[ch].key == key && ch !in s.closed
    && var p := s.At(s.made[ch].owner);
       ch in s.pending || p == WantUnlock(key, ch) || p == InUnlock(key, ch)
  }

  predicate PendingOk<K(!new)>(s: State<K>, ch: Chan) {
    ch < |s.made| && Live(s, s.made[ch].key, ch)
  }

  predicate PcOk<K(!new)>(s: State<K>, t: Tid) {
    match s.At(t)
    case Done(got) => got.Some? ==> got.value < |s.made| && s.made[got.value].owner == t
    case WantTry(_, _) => true
    case InTry(_, _) => s.master == Some(t)
    case Waiting(key, ch) =>
      && ch < |s.made| && s.made[ch].key == key
      && (Live(s, key, ch) || ch in s.closed || s.At(s.made[ch].owner) == Deleted(key, ch))
    case WantUnlock(key, ch) => MadeFor(s, ch, key, t) && Live(s, key, ch) && ch !in s.pending
    case InUnlock(key, ch) => MadeFor(s, ch, key, t) && Live(s, key, ch) && ch !in s.pending && s.master == Some(t)
    case Deleted(key, ch) =>
      MadeFor(s, ch, key, t) && key !in s.locks && ch !in s.pending && ch !in s.closed && s.master == Some(t)
  }

  predicate ClosedOk<K(!new)>(s: State<K>, ch: Chan) {
    ch < |s.made| && s.closed[ch] == 1 && ch in s.closer && s.closer[ch] == s.made[ch].owner
  }

  ghost predicate Inv<K(!new)>(s: State<K>) {
    && (forall k :: k in s.locks ==> LockOk(s, k, s.locks[k]))
    && (forall c :: c in s.pending ==> PendingOk(s, c))
    && (forall t :: PcOk(s, t))
    && (forall c :: c in s.closed ==> ClosedOk(s, c))
    && (s.master.Some? ==> var p := s.At(s.master.value); p.InTry? || p.InUnlock? || p.Deleted?)
  }

  lemma OwnPcOk<K(!new)>(s: State<K>, t: Tid, a: Action<K>, s': State<K>)
    requires Inv(s) && Step(s, t, a) == Some(s')
    ensures PcOk(s', t)
  {
    assert PcOk(s, t);
  }

  /** Another thread's position stays consistent. */
  lemma OtherPcOk<K(!new)>(s: State<K>, t: Tid, a: Action<K>, s': State<K>, u: Tid)
    requires PcOk(s, t) && PcOk(s, u) && Step(s, t, a) == Some(s') && u != t && !s.At(u).Waiting?
    ensures PcOk(s', u)
  {
    assert s'.At(u) == s.At(u);
  }

  /** The channel of a live entry stays live, or its owner is about to close it. */
  lemma LiveOrDeleted<K(!new)>(s: State<K>, t: Tid, a: Action<K>, s': State<K>, key: K, ch: Chan)
    requires PcOk(s, t) && Step(s, t, a) == Some(s') && Live(s, key, ch) && ch < |s.made|
    ensures Live(s', key, ch) || s'.At(s.made[ch].owner) == Deleted(key, ch)
  {
  }

  lemma DeletedOrClosed<K(!new)>(s: State<K>, t: Tid, a: Action<K>, s': State<K>, key: K, ch: Chan)
    requires Step(s, t, a) == Some(s') && ch < |s.made| && s.At(s.made[ch].owner) == Deleted(key, ch)
    ensures ch in s'.closed || s'.At(s.made[ch].owner) == Deleted(key, ch)
  {
    if s.made[ch].owner != t {
      OthersStay(s, t, a, s', s.made[ch].owner);
    }
  }

  lemma OtherWaiterOk<K(!new)>(s: State<K>, t: Tid, a: Action<K>, s': State<K>, u: Tid)
    requires PcOk(s, t) && PcOk(s, u) && Step(s, t, a) == Some(s') && u != t && s.At(u).Waiting?
    ensures PcOk(s', u)
  {
    OthersStay(s, t, a, s', u);
    PendingFrame(s, t, a, s');
    var Waiting(key, ch) := s.At(u);
    assert s'.made[ch] == s.made[ch];
    if Live(s, key, ch) {
      LiveOrDeleted(s, t, a, s', key, ch);
    } else if ch in s.closed {
      ClosedGrows(s, t, a, s');
    } else {
      DeletedOrClosed(s, t, a, s', key, ch);
    }
  }

  lemma ClosedGrows<K(!new)>(s: State<K>, t: Tid, a: Action<K>, s': State<K>)
    requires Step(s, t, a) == Some(s')
    ensures forall ch :: ch in s.closed ==> ch in s'.closed
  {
  }

  /** A lock that was there stays consistent, or its own holder deletes it. */
  lemma OldLockOk<K(!new)>(s: State<K>, t: Tid, a: Action<K>, s': State<K>, key: K)
    requires PcOk(s, t) && Step(s, t, a) == Some(s') && key in s.locks && LockOk(s, key, s.locks[key])
    ensures key in s'.locks ==> LockOk(s', key, s'.locks[key])
  {
    var ch := s.locks[key];
    assert ch in s'.pending <==> ch in s.pending && a != CallUnlock(ch);
  }

  lemma NewLockOk<K(!new)>(s: State<K>, t: Tid, a: Action<K>, s': State<K>, key: K)
    requires PcOk(s, t) && Step(s, t, a) == Some(s') && key !in s.locks && key in s'.locks
    requires |s.made| !in s.closed
    ensures LockOk(s', key, s'.locks[key])
  {
    assert s'.locks[key] == |s.made|;
  }

  lemma PendingStaysOk<K(!new)>(s: State<K>, t: Tid, a: Action<K>, s': State<K>, ch: Chan)
    requires PcOk(s, t) && Step(s, t, a) == Some(s') && ch in s'.pending && (ch in s.pending ==> PendingOk(s, ch))
    ensures PendingOk(s', ch)
  {
  }

  lemma ClosedStaysOk<K(!new)>(s: State<K>, t: Tid, a: Action<K>, s': State<K>, ch: Chan)
    requires PcOk(s, t) && Step(s, t, a) == Some(s') && ch in s'.closed && (ch in s.closed ==> ClosedOk(s, ch))
    ensures ClosedOk(s', ch)
  {
  }

  lemma PcsStayOk<K(!new)>(s: State<K>, t: Tid, a: Action<K>, s': State<K>, u: Tid)
    requires Inv(s) && Step(s, t, a) == Some(s')
    ensures PcOk(s', u)
  {
    assert PcOk(s, t) && PcOk(s, u);
    if u == t {
      OwnPcOk(s, t, a, s');
    } else if s.At(u).Waiting? {
      OtherWaiterOk(s, t, a, s', u);
    } else {
      OtherPcOk(s, t, a, s', u);
    }
  }

  lemma LocksStayOk<K(!new)>(s: State<K>, t: Tid, a: Action<K>, s': State<K>, k: K)
    requires Inv(s) && Step(s, t, a) == Some(s') && k in s'.locks
    ensures LockOk(s', k, s'.locks[k])
  {
    assert PcOk(s, t) && |s.made| !in s.closed;
    if k in s.locks { OldLockOk(s, t, a, s', k); } else { NewLockOk(s, t, a, s', k); }
  }

  lemma StepKeepsInv<K(!new)>(s: State<K>, t: Tid, a: Action<K>, s': State<K>)
    requires Inv(s) && Step(s, t, a) == Some(s')
    ensures Inv(s')
  {
    assert PcOk(s, t);
    forall u
      ensures PcOk(s', u)
    {
      PcsStayOk(s, t, a, s', u);
    }
    forall k | k in s'.locks
      ensures LockOk(s', k, s'.locks[k])
    {
      LocksStayOk(s, t, a, s', k);
    }
    forall c | c in s'.pending
      ensures PendingOk(s', c)
    {
      PendingStaysOk(s, t, a, s', c);
    }
    forall c | c in s'.closed
      ensures ClosedOk(s', c)
    {
      ClosedStaysOk(s, t, a, s', c);
    }
    MasterStaysOk(s, t, a, s');
  }

  lemma MasterStaysOk<K(!new)>(s: State<K>, t: Tid, a: Action<K>, s': State<K>)
    requires Inv(s) && Step(s, t, a) == Some(s')
    ensures s'.master.Some? ==> var p := s'.At(s'.master.value); p.InTry? || p.InUnlock? || p.Deleted?
  {
    assert PcOk(s, t);
  }

  lemma {:induction false} RunKeepsInv<K(!new)>(r: seq<State<K>>, i: nat)
    requires IsRun(r) && i < |r|
    ensures Inv(r[i])
  {
    if i > 0 {
      RunKeepsInv(r, i - 1);
      assert NextAt(r, i - 1);
      var t, a :| Step(r[i - 1], t, a) == Some(r[i]);
      StepKeepsInv(r[i - 1], t, a, r[i]);
    }
  }

  // --- what it gives ---

  /** `t` has locked `key` through `ch` and not freed it yet. */
  predicate Holds<K(!new)>(s: State<K>, t: Tid, key: K, ch: Chan) {
    MadeFor(s, ch, key, t) && (ch in s.pending || s.At(t) == WantUnlock(key, ch) || s.At(t) == InUnlock(key, ch))
  }

  lemma MutualExclusion<K(!new)>(r: seq<State<K>>, i: nat, t: Tid, u: Tid, key: K, c: Chan, d: Chan)
    requires IsRun(r) && i < |r| && Holds(r[i], t, key, c) && Holds(r[i], u, key, d)
    ensures t == u && c == d && Live(r[i], key, c)
  {
    RunKeepsInv(r, i);
    assert PcOk(r[i], t) && PcOk(r[i], u);
  }

  /** A key is in the map exactly while someone holds it. */
  lemma LockedIffHeld<K(!new)>(r: seq<State<K>>, i: nat, key: K)
    requires IsRun(r) && i < |r|
    ensures key in r[i].locks <==> exists t, c :: Holds(r[i], t, key, c)
  {
    RunKeepsInv(r, i);
    if key in r[i].locks {
      var c := r[i].locks[key];
      assert Holds(r[i], r[i].made[c].owner, key, c);
    } else if t, c :| Holds(r[i], t, key, c) {
      assert PcOk(r[i], t);
    }
  }

  lemma ClosedOnceByItsHolder<K(!new)>(r: seq<State<K>>, i: nat, ch: Chan)
    requires IsRun(r) && i < |r|
    ensures r[i].closed[ch] <= 1
    ensures ch in r[i].closed ==> ch < |r[i].made| && ch in r[i].closer && r[i].closer[ch] == r[i].made[ch].owner
  {
    RunKeepsInv(r, i);
  }

  /** Whoever waits can still be woken: its channel is the live one, is already closed, or is about
      to be closed by a thread whose next step cannot block. */
  lemma NoLostWakeup<K(!new)>(r: seq<State<K>>, i: nat, t: Tid)
    requires IsRun(r) && i < |r| && r[i].At(t).Waiting?
    ensures var ch := r[i].At(t).ch;
            || Live(r[i], r[i].At(t).key, ch)
            || (ch in r[i].closed && Step(r[i], t, Run).Some?)
            || exists u, s' :: Step(r[i], u, Run) == Some(s') && ch in s'.closed
  {
    RunKeepsInv(r, i);
    assert PcOk(r[i], t);
    var ch := r[i].At(t).ch;
    var u := r[i].made[ch].owner;
    if r[i].At(u) == Deleted(r[i].At(t).key, ch) {
      var s' := Step(r[i], u, Run).value;
      assert Step(r[i], u, Run) == Some(s') && ch in s'.closed;
    }
  }

  /** The map itself never blocks: when no thread can move inside its call, every thread that is in
      a call waits for a lock whose holder has simply not called the callback. */
  lemma StuckOnlyOnHolders<K(!new)>(r: seq<State<K>>, i: nat, t: Tid)
    requires IsRun(r) && i < |r| && !r[i].At(t).Done?
    requires forall u :: Step(r[i], u, Run).None?
    ensures r[i].At(t).Waiting? && Live(r[i], r[i].At(t).key, r[i].At(t).ch) && r[i].At(t).ch in r[i].pending
  {
    var s := r[i];
    RunKeepsInv(r, i);
    StuckInInvState(s, t);
  }

  lemma StuckInInvState<K(!new)>(s: State<K>, t: Tid)
    requires Inv(s) && !s.At(t).Done?
    requires forall u :: Step(s, u, Run).None?
    ensures s.At(t).Waiting? && Live(s, s.At(t).key, s.At(t).ch) && s.At(t).ch in s.pending
  {
    assert PcOk(s, t) && Step(s, t, Run).None?;
    assert s.master.Some? ==> RunStep(s, s.master.value).Some? && Step(s, s.master.value, Run).Some?;
    var ch := s.At(t).ch;
    var u := s.made[ch].owner;
    assert PcOk(s, u) && Step(s, u, Run).None?;
  }

  // --- a call that nobody interferes with ---

  function Steps<K(!new)>(s: State<K>, t: Tid, actions: seq<Action<K>>): Option<State<K>>
    decreases |actions|
  {
    if actions == [] then Some(s)
    else
      match Step(s, t, actions[0])
      case None => None
      case Some(s') => Steps(s', t, actions[1..])
  }

  lemma StepsFrom<K(!new)>(s: State<K>, t: Tid, a: Action<K>, rest: seq<Action<K>>)
    requires Step(s, t, a).Some?
    ensures Steps(s, t, [a] + rest) == Steps(Step(s, t, a).value, t, rest)
  {
    assert ([a] + rest)[1..] == rest;
  }

  lemma StepsOfThree<K(!new)>(s: State<K>, t: Tid, a: Action<K>, b: Action<K>, c: Action<K>)
    requires Step(s, t, a).Some? && Step(Step(s, t, a).value, t, b).Some?
    ensures Steps(s, t, [a, b, c]) == Step(Step(Step(s, t, a).value, t, b).value, t, c)
  {
    var s1 := Step(s, t, a).value;
    var s2 := Step(s1, t, b).value;
    var none: seq<Action<K>> := [];
    StepsFrom(s, t, a, [b, c]);
    StepsFrom(s1, t, b, [c]);
    assert [a] + [b, c] == [a, b, c] && [b] + [c] == [b, c] && [c][1..] == none;
  }

  /** Run alone, the steps of TryLock do what the method of the class promises. */
  lemma TryLockAlone<K(!new)>(s: State<K>, t: Tid, key: K)
    requires s.At(t).Done? && s.master.None?
    ensures var r := Steps(s, t, [CallTryLock(key), Run, Run]);
            && r.Some? && r.value.master.None? && r.value.closed == s.closed
            && r.value.locks == LocksAfterTry(s.locks, key, |s.made|)
            && r.value.At(t) == Done(if key in s.locks then None else Some(|s.made|))
            && |r.value.made| == |s.made| + if key in s.locks then 0 else 1
  {
    StepsOfThree(s, t, CallTryLock(key), Run, Run);
  }

  /** ... and so do those of the unlock callback. */
  lemma UnlockAlone<K(!new)>(s: State<K>, t: Tid, ch: Chan)
    requires s.At(t).Done? && s.master.None? && ch in s.pending && ch < |s.made| && s.made[ch].owner == t
    ensures var r := Steps(s, t, [CallUnlock(ch), Run, Run, Run]);
            && r.Some? && r.value.master.None? && r.value.At(t) == Done(None)
            && r.value.locks == s.locks - {s.made[ch].key} && r.value.made == s.made
            && r.value.closed == s.closed + multiset{ch} && r.value.pending == s.pending - {ch}
  {
    var s1 := Step(s, t, CallUnlock(ch)).value;
    StepsOfThree(s1, t, Run, Run, Run);
    var actions: seq<Action<K>> := [CallUnlock(ch), Run, Run, Run];
    StepsFrom(s, t, CallUnlock(ch), actions[1..]);
    assert [actions[0]] + actions[1..] == actions && actions[1..] == [Run, Run, Run];
  }
}
