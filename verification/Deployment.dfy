/** `Deploy`: one submitter and a group of workers over an unbuffered channel, then publication.
    Every step is one the scheduler may choose; failures are choices of the events. */
module Deployment {
  import opened Wrappers
  import opened Strings
  import opened Sorting
  import opened ObjectIDs
  import opened Content

  const CONCURRENCY := 3

  datatype Worker =
    | Receiving                                   // at the head of its `range work` loop
    | Storing(item: Item)                         // inserting the content
    | WantMu(item: Item)                          // about to take manifestMu
    | InMu(item: Item, files: seq<Entry>)         // holding it, having read manifest.Files
    | Stopped                                     // returned

  datatype Submitter = Reading | Sending(item: Item) | Closed

  datatype Outcome = Pending | Publishing(manifest: Manifest) | Failed | Deployed(id: ObjectID, manifest: Manifest)

  datatype DState = DState(
    metadata: string,
    items: seq<Item>,          // what nextFile will return
    next: nat,                 // how many of them it has returned
    sub: Submitter,            // Closed: returned, and the channel is closed
    workers: seq<Worker>,
    mu: Option<nat>,
    files: seq<Entry>,         // manifest.Files
    appended: seq<Item>,       // the items behind them
    dropped: seq<Item>,        // the items given up by whoever failed or was cancelled
    failed: bool,              // some goroutine returned an error: the group's context is cancelled
    outcome: Outcome)
  {
    function Set(w: nat, to: Worker): DState
      requires w < |workers|
    {
      this.(workers := workers[w := to])
    }
  }

  datatype Event =
    | ReadNext
    | ReadFails
    | Send(w: nat)
    | SendCancelled
    | Store(w: nat, how: Write, ok: bool)
    | Lock(w: nat)
    | Append(w: nat)
    | Drain(w: nat)
    | Wait(sorted: seq<Entry>)
    | Publish(how: Write, ok: bool)

  /** The order `sort.Slice` is given. */
  const BY_PATH := (a: Entry, b: Entry) => Less(a.path, b.path)

  function Begin(metadata: string, items: seq<Item>, concurrency: nat): DState {
    DState(metadata, items, 0, Reading, seq(concurrency, i => Receiving), None, [], [], [], false, Pending)
  }

  predicate AllStopped(d: DState) {
    d.sub.Closed? && forall w :: 0 <= w < |d.workers| ==> d.workers[w].Stopped?
  }

  ghost function DStep(c: Codecs, d: DState, o: Origin, e: Event): Option<(DState, Origin)> {
    match e
    case ReadNext =>
      if !d.sub.Reading? then None
      else if d.next >= |d.items| then Some((d.(sub := Closed), o))
      else Some((d.(sub := Sending(d.items[d.next]), next := d.next + 1), o))
    case ReadFails => if d.sub.Reading? then Some((d.(sub := Closed, failed := true), o)) else None
    case Send(w) =>
      if d.sub.Sending? && w < |d.workers| && d.workers[w].Receiving? then
        Some((d.Set(w, Storing(d.sub.item)).(sub := Reading), o))
      else None
    case SendCancelled =>
      if d.sub.Sending? && d.failed then Some((d.(sub := Closed, dropped := d.dropped + [d.sub.item]), o)) else None
    case Store(w, how, ok) =>
      if w < |d.workers| && d.workers[w].Storing? && (ok ==> how != Nothing) then
        var item := d.workers[w].item;
        var o' := o.(files := Inserted(o.files, c.hash(item.content), item.content, how), seen := o.seen + {item.content});
        Some((if ok then d.Set(w, WantMu(item)) else d.Set(w, Stopped).(failed := true, dropped := d.dropped + [item]), o'))
      else None
    case Lock(w) =>
      if w < |d.workers| && d.workers[w].WantMu? && d.mu.None? then
        Some((d.Set(w, InMu(d.workers[w].item, d.files)).(mu := Some(w)), o))
      else None
    case Append(w) =>
      if w < |d.workers| && d.workers[w].InMu? then
        var InMu(item, files) := d.workers[w];
        Some((d.Set(w, Receiving).(mu := None, files := files + [c.EntryOf(item)], appended := d.appended + [item]), o))
      else None
    case Drain(w) =>
      if w < |d.workers| && d.workers[w].Receiving? && d.sub.Closed? then Some((d.Set(w, Stopped), o)) else None
    case Wait(sorted) =>
      if !d.outcome.Pending? || !AllStopped(d) then None
      else if d.failed || d.files == [] then Some((d.(outcome := Failed), o))
      else if IsSortOf(BY_PATH, d.files, sorted) then
        Some((d.(outcome := Publishing(Manifest(d.metadata, sorted))), o))
      else None
    case Publish(how, ok) =>
      if d.outcome.Publishing? && (ok ==> how != Nothing) then
        var m := d.outcome.manifest;
        var id := c.hash(c.encode(m));
        var o' := o.(manifests := Inserted(o.manifests, id, c.encode(m), how), seen := o.seen + {c.encode(m)},
                     releases := if how == Nothing then o.releases else o.releases + {Release(id, m, d.items)});
        Some((d.(outcome := if ok then Deployed(id, m) else Failed), o'))
      else None
  }

  // --- every run ends ---

  function Weight(w: Worker): nat {
    match w
    case Receiving => 1
    case Storing(_) => 4
    case WantMu(_) => 3
    case InMu(_, _) => 2
    case Stopped => 0
  }

  function Weights(ws: seq<Worker>): nat {
    if ws == [] then 0 else Weight(ws[0]) + Weights(ws[1..])
  }

  lemma {:induction false} WeightsUpdate(ws: seq<Worker>, i: nat, w: Worker)
    requires i < |ws|
    ensures Weights(ws[i := w]) == Weights(ws) - Weight(ws[i]) + Weight(w)
  {
    if i == 0 {
      assert ws[0 := w][1..] == ws[1..];
    } else {
      assert ws[i := w][1..] == ws[1..][i - 1 := w];
      WeightsUpdate(ws[1..], i - 1, w);
    }
  }

  function Measure(d: DState): nat {
    8 * (if d.next <= |d.items| then |d.items| - d.next else 0)
    + (match d.sub case Reading => 1 case Sending(_) => 6 case Closed => 0)
    + Weights(d.workers)
    + (match d.outcome case Pending => 2 case Publishing(_) => 1 case _ => 0)
  }

  predicate BySubmitter(e: Event) {
    e.ReadNext? || e.ReadFails? || e.Send? || e.SendCancelled?
  }

  /** Whatever is scheduled and whatever fails, each step uses up some of the measure. */
  lemma StepDecreases(c: Codecs, d: DState, o: Origin, e: Event)
    requires DStep(c, d, o, e).Some?
    ensures Measure(DStep(c, d, o, e).value.0) < Measure(d)
  {
    if BySubmitter(e) {
      if e.Send? { WeightsUpdate(d.workers, e.w, Storing(d.sub.item)); }
    } else {
      WorkerStepDecreases(c, d, o, e);
    }
  }

  lemma StoreStepDecreases(c: Codecs, d: DState, o: Origin, e: Event)
    requires DStep(c, d, o, e).Some? && e.Store?
    ensures Measure(DStep(c, d, o, e).value.0) < Measure(d)
  {
    WeightsUpdate(d.workers, e.w, if e.ok then WantMu(d.workers[e.w].item) else Stopped);
  }

  lemma WorkerStepDecreases(c: Codecs, d: DState, o: Origin, e: Event)
    requires DStep(c, d, o, e).Some? && !BySubmitter(e)
    ensures Measure(DStep(c, d, o, e).value.0) < Measure(d)
  {
    match e
    case Store(_, _, _) => StoreStepDecreases(c, d, o, e);
    case Lock(w) => WeightsUpdate(d.workers, w, InMu(d.workers[w].item, d.files));
    case Append(w) => WeightsUpdate(d.workers, w, Receiving);
    case Drain(w) => WeightsUpdate(d.workers, w, Stopped);
    case _ =>
  }

  // --- conservation and order ---

  /** How many workers have received `x` and not yet appended it. */
  function InFlight(ws: seq<Worker>, x: Item): nat {
    if ws == [] then 0 else Carried(ws[0], x) + InFlight(ws[1..], x)
  }

  function Carried(w: Worker, x: Item): nat {
    if (w.Storing? || w.WantMu? || w.InMu?) && w.item == x then 1 else 0
  }

  lemma {:induction false} InFlightUpdate(ws: seq<Worker>, i: nat, w: Worker, x: Item)
    requires i < |ws|
    ensures InFlight(ws[i := w], x) == InFlight(ws, x) - Carried(ws[i], x) + Carried(w, x)
  {
    if i == 0 {
      assert ws[0 := w][1..] == ws[1..];
    } else {
      assert ws[i := w][1..] == ws[1..][i - 1 := w];
      InFlightUpdate(ws[1..], i - 1, w, x);
    }
  }

  function BeingSent(d: DState, x: Item): nat {
    if d.sub.Sending? && d.sub.item == x then 1 else 0
  }

  /** Wherever it has got to, `x` is somewhere as often as it was submitted, whatever has failed. */
  predicate Conserved(d: DState, x: Item)
    requires d.next <= |d.items|
  {
    multiset(d.items[..d.next])[x]
    == multiset(d.appended)[x] + InFlight(d.workers, x) + BeingSent(d, x) + multiset(d.dropped)[x]
  }

  ghost predicate DInv(c: Codecs, d: DState) {
    Shape(c, d) && forall x :: Conserved(d, x)
  }

  ghost predicate Shape(c: Codecs, d: DState) {
    && d.next <= |d.items|
    && (d.sub.Closed? && !d.failed ==> d.next == |d.items|)
    && (!d.failed ==> d.dropped == [])
    && (d.mu.Some? ==> d.mu.value < |d.workers| && d.workers[d.mu.value].InMu?)
    && (forall w :: 0 <= w < |d.workers| && d.workers[w].InMu? ==> d.mu == Some(w) && d.workers[w].files == d.files)
    && (forall w :: 0 <= w < |d.workers| && d.workers[w].Stopped? ==> d.failed || d.sub.Closed?)
    && d.files == c.Entries(d.appended)
    && (!d.outcome.Pending? ==> AllStopped(d))
    && (d.outcome.Publishing? ==> !d.failed && ResultOk(d, d.outcome.manifest))
    && (d.outcome.Deployed? ==>
          !d.failed && ResultOk(d, d.outcome.manifest) && d.outcome.id == c.hash(c.encode(d.outcome.manifest)))
  }

  ghost predicate ResultOk(d: DState, m: Manifest) {
    m.metadata == d.metadata && d.files != [] && IsSortOf(BY_PATH, d.files, m.files)
  }

  lemma BeginInv(c: Codecs, metadata: string, items: seq<Item>, concurrency: nat)
    ensures DInv(c, Begin(metadata, items, concurrency))
  {
    forall x
      ensures Conserved(Begin(metadata, items, concurrency), x)
    {
      NoneInFlight(Begin(metadata, items, concurrency).workers, x);
    }
  }

  lemma {:induction false} NoneInFlight(ws: seq<Worker>, x: Item)
    requires forall w :: 0 <= w < |ws| ==> ws[w].Receiving? || ws[w].Stopped?
    ensures InFlight(ws, x) == 0
  {
    if ws != [] {
      NoneInFlight(ws[1..], x);
    }
  }

  lemma ReadConserves(c: Codecs, d: DState, o: Origin, x: Item)
    requires d.next < |d.items| && Conserved(d, x) && DStep(c, d, o, ReadNext).Some?
    ensures Conserved(DStep(c, d, o, ReadNext).value.0, x)
  {
    assert d.items[..d.next + 1] == d.items[..d.next] + [d.items[d.next]];
  }

  lemma SubmitterConserves(c: Codecs, d: DState, o: Origin, e: Event, x: Item)
    requires d.next <= |d.items| && Conserved(d, x) && DStep(c, d, o, e).Some? && BySubmitter(e)
    ensures DStep(c, d, o, e).value.0.next <= |d.items| && Conserved(DStep(c, d, o, e).value.0, x)
  {
    if e.ReadNext? && d.next < |d.items| {
      ReadConserves(c, d, o, x);
    } else if e.Send? {
      InFlightUpdate(d.workers, e.w, Storing(d.sub.item), x);
    }
  }

  lemma StoreConserves(c: Codecs, d: DState, o: Origin, e: Event, x: Item)
    requires d.next <= |d.items| && Conserved(d, x) && DStep(c, d, o, e).Some? && e.Store?
    ensures DStep(c, d, o, e).value.0.next <= |d.items| && Conserved(DStep(c, d, o, e).value.0, x)
  {
    InFlightUpdate(d.workers, e.w, if e.ok then WantMu(d.workers[e.w].item) else Stopped, x);
  }

  lemma AppendConserves(c: Codecs, d: DState, o: Origin, e: Event, x: Item)
    requires d.next <= |d.items| && Conserved(d, x) && DStep(c, d, o, e).Some? && e.Append?
    ensures DStep(c, d, o, e).value.0.next <= |d.items| && Conserved(DStep(c, d, o, e).value.0, x)
  {
    InFlightUpdate(d.workers, e.w, Receiving, x);
  }

  lemma WorkersConserve(c: Codecs, d: DState, o: Origin, e: Event, x: Item)
    requires d.next <= |d.items| && Conserved(d, x) && DStep(c, d, o, e).Some? && !BySubmitter(e) && !e.Store?
    ensures DStep(c, d, o, e).value.0.next <= |d.items| && Conserved(DStep(c, d, o, e).value.0, x)
  {
    match e
    case Lock(w) => InFlightUpdate(d.workers, w, InMu(d.workers[w].item, d.files), x);
    case Append(w) => AppendConserves(c, d, o, e, x);
    case Drain(w) => InFlightUpdate(d.workers, w, Stopped, x);
    case _ =>
  }

  lemma SubmitterKeepsShape(c: Codecs, d: DState, o: Origin, e: Event)
    requires Shape(c, d) && DStep(c, d, o, e).Some? && BySubmitter(e)
    ensures Shape(c, DStep(c, d, o, e).value.0)
  {
  }

  lemma AppendKeepsShape(c: Codecs, d: DState, o: Origin, w: nat)
    requires Shape(c, d) && DStep(c, d, o, Append(w)).Some?
    ensures Shape(c, DStep(c, d, o, Append(w)).value.0)
  {
    assert c.Entries(d.appended + [d.workers[w].item]) == c.Entries(d.appended) + [c.EntryOf(d.workers[w].item)];
  }

  lemma StoreKeepsShape(c: Codecs, d: DState, o: Origin, e: Event)
    requires Shape(c, d) && DStep(c, d, o, e).Some? && e.Store?
    ensures Shape(c, DStep(c, d, o, e).value.0)
  {
  }

  lemma OutcomeKeepsShape(c: Codecs, d: DState, o: Origin, e: Event)
    requires Shape(c, d) && DStep(c, d, o, e).Some? && (e.Wait? || e.Publish?)
    ensures Shape(c, DStep(c, d, o, e).value.0)
  {
  }

  lemma WorkersKeepShape(c: Codecs, d: DState, o: Origin, e: Event)
    requires Shape(c, d) && DStep(c, d, o, e).Some? && !BySubmitter(e)
    ensures Shape(c, DStep(c, d, o, e).value.0)
  {
    match e
    case Store(_, _, _) => StoreKeepsShape(c, d, o, e);
    case Append(w) => AppendKeepsShape(c, d, o, w);
    case Wait(_) => OutcomeKeepsShape(c, d, o, e);
    case Publish(_, _) => OutcomeKeepsShape(c, d, o, e);
    case _ =>
  }

  lemma StepKeepsDInv(c: Codecs, d: DState, o: Origin, e: Event)
    requires DInv(c, d) && DStep(c, d, o, e).Some?
    ensures DInv(c, DStep(c, d, o, e).value.0)
  {
    if BySubmitter(e) {
      SubmitterKeepsShape(c, d, o, e);
    } else {
      WorkersKeepShape(c, d, o, e);
    }
    forall x
      ensures Conserved(DStep(c, d, o, e).value.0, x)
    {
      if BySubmitter(e) {
        SubmitterConserves(c, d, o, e, x);
      } else if e.Store? {
        StoreConserves(c, d, o, e, x);
      } else {
        WorkersConserve(c, d, o, e, x);
      }
    }
  }

  // --- what holds of every run of one deployment ---

  predicate Finished(d: DState) {
    (d.outcome.Failed? || d.outcome.Deployed?) && AllStopped(d)
  }

  /** `d` becomes `d'` in one step, whatever other deployments have put into the stores meanwhile. */
  ghost predicate DNext(c: Codecs, d: DState, d': DState) {
    exists o, e :: StepsTo(c, d, o, e, d')
  }

  ghost predicate StepsTo(c: Codecs, d: DState, o: Origin, e: Event, d': DState) {
    DStep(c, d, o, e).Some? && DStep(c, d, o, e).value.0 == d'
  }

  ghost predicate DNextAt(c: Codecs, r: seq<DState>, i: nat)
    requires i < |r| - 1
  {
    DNext(c, r[i], r[i + 1])
  }

  ghost predicate IsDRun(c: Codecs, r: seq<DState>) {
    && |r| > 0 && r[0] == Begin(r[0].metadata, r[0].items, CONCURRENCY)
    && forall i :: 0 <= i < |r| - 1 ==> DNextAt(c, r, i)
  }

  lemma {:induction false} DRunKeepsInv(c: Codecs, r: seq<DState>, i: nat)
    requires IsDRun(c, r) && i < |r|
    ensures DInv(c, r[i]) && |r[i].workers| == CONCURRENCY
    ensures r[i].items == r[0].items && r[i].metadata == r[0].metadata
    ensures i + Measure(r[i]) <= Measure(r[0])
  {
    if i == 0 {
      BeginInv(c, r[0].metadata, r[0].items, CONCURRENCY);
    } else {
      DRunKeepsInv(c, r, i - 1);
      assert DNextAt(c, r, i - 1);
      NextKeepsInv(c, r[i - 1], r[i]);
    }
  }

  lemma NextKeepsInv(c: Codecs, d: DState, d': DState)
    requires DNext(c, d, d') && DInv(c, d)
    ensures DInv(c, d') && Measure(d') < Measure(d)
    ensures |d'.workers| == |d.workers| && d'.items == d.items && d'.metadata == d.metadata
  {
    var o, e :| StepsTo(c, d, o, e, d');
    StepKeepsDInv(c, d, o, e);
    StepDecreases(c, d, o, e);
    StepKeepsSetup(c, d, o, e);
  }

  lemma StepKeepsSetup(c: Codecs, d: DState, o: Origin, e: Event)
    requires DStep(c, d, o, e).Some?
    ensures var d' := DStep(c, d, o, e).value.0; |d'.workers| == |d.workers| && d'.items == d.items && d'.metadata == d.metadata
  {
  }

  ghost predicate Stuck(c: Codecs, d: DState, o: Origin) {
    forall e :: DStep(c, d, o, e).None?
  }

  /** Runs are bounded, and one that cannot go on has ended with every goroutine returned. */
  lemma EveryRunEnds(c: Codecs, r: seq<DState>, o: Origin)
    requires IsDRun(c, r)
    ensures |r| <= 8 * |r[0].items| + CONCURRENCY + 4
    ensures Stuck(c, r[|r| - 1], o) ==> Finished(r[|r| - 1])
  {
    DRunKeepsInv(c, r, |r| - 1);
    assert r[0].workers == [Receiving, Receiving, Receiving];
    assert Weights([Receiving, Receiving, Receiving]) == 3 by {
      assert [Receiving, Receiving, Receiving][1..] == [Receiving, Receiving];
      assert [Receiving, Receiving][1..] == [Receiving];
    }
    var d := r[|r| - 1];
    if !Finished(d) {
      var e := EnabledEvent(c, d, o);
    }
  }

  predicate Busy(w: Worker) {
    w.Storing? || w.WantMu? || w.InMu?
  }

  lemma EnabledEvent(c: Codecs, d: DState, o: Origin) returns (e: Event)
    requires DInv(c, d) && |d.workers| > 0 && !Finished(d)
    ensures DStep(c, d, o, e).Some?
  {
    if d.sub.Reading? {
      e := ReadNext;
    } else if d.mu.Some? {
      e := Append(d.mu.value);
    } else if w :| 0 <= w < |d.workers| && Busy(d.workers[w]) {
      e := if d.workers[w].Storing? then Store(w, IfAbsent, true) else Lock(w);
    } else if w :| 0 <= w < |d.workers| && d.workers[w].Receiving? {
      e := if d.sub.Sending? then Send(w) else Drain(w);
    } else if d.sub.Sending? {
      assert d.workers[0].Stopped?;
      e := SendCancelled;
    } else if d.outcome.Publishing? {
      e := Publish(IfAbsent, true);
    } else {
      PathOrder();
      var sorted := SortExists(BY_PATH, d.files);
      e := Wait(sorted);
    }
  }

  lemma PathOrder()
    ensures StrictWeakOrder(BY_PATH)
  {
    forall a: Entry, b: Entry
      ensures BY_PATH(a, b) ==> !BY_PATH(b, a)
    {
      LessTrichotomy(a.path, b.path);
    }
    forall a: Entry, b: Entry, c: Entry
      ensures Chains(BY_PATH, a, b, c)
    {
      LessTrichotomy(a.path, b.path);
      LessTrichotomy(b.path, c.path);
      LessTrichotomy(a.path, c.path);
      if Less(a.path, b.path) && Less(b.path, c.path) {
        LessTransitive(a.path, b.path, c.path);
      }
    }
  }

  /** Success means that the manifest lists exactly the submitted files, each as often as submitted. */
  lemma DeployedMeansAll(c: Codecs, d: DState)
    requires DInv(c, d) && (d.outcome.Deployed? || d.outcome.Publishing?)
    ensures multiset(d.files) == multiset(c.Entries(d.items))
    ensures IsSortOf(BY_PATH, c.Entries(d.items), d.outcome.manifest.files)
    ensures var files := d.outcome.manifest.files; forall i, j :: 0 <= i < j < |files| ==> !Less(files[j].path, files[i].path)
    ensures d.outcome.manifest.metadata == d.metadata && d.items != []
  {
    StoppedMeansAll(c, d);
    EntriesKeepMultiset(c, d.items, d.appended);
    assert d.appended != [];
    assert d.appended[0] in multiset(d.items);
  }

  /** However a run ends, every file that was read is listed or was given up, and nothing is given up
      without the deployment failing. */
  lemma EndsAccounted(c: Codecs, r: seq<DState>)
    requires IsDRun(c, r) && AllStopped(r[|r| - 1])
    ensures var d := r[|r| - 1];
            && d.next <= |d.items|
            && multiset(d.items[..d.next]) == multiset(d.appended) + multiset(d.dropped)
            && (d.dropped != [] || d.next < |d.items| ==> d.failed && !d.outcome.Deployed?)
  {
    var d := r[|r| - 1];
    DRunKeepsInv(c, r, |r| - 1);
    forall x
      ensures multiset(d.items[..d.next])[x] == multiset(d.appended)[x] + multiset(d.dropped)[x]
    {
      assert Conserved(d, x);
      NoneInFlight(d.workers, x);
    }
  }

  // --- when a deployment fails ---

  /** Reading a file, storing one, or storing the manifest fails. */
  predicate IsFault(e: Event) {
    e.ReadFails? || (e.Store? && !e.ok) || (e.Publish? && !e.ok)
  }

  ghost predicate FaultyStep(c: Codecs, d: DState, d': DState) {
    exists o, e :: IsFault(e) && StepsTo(c, d, o, e, d')
  }

  ghost predicate FaultAt(c: Codecs, r: seq<DState>, k: nat)
    requires k < |r| - 1
  {
    FaultyStep(c, r[k], r[k + 1])
  }

  ghost predicate HadFault(c: Codecs, r: seq<DState>, i: nat)
    requires i < |r|
  {
    exists k :: 0 <= k < i && FaultAt(c, r, k)
  }

  predicate HasFailed(d: DState) {
    d.failed || d.outcome.Failed?
  }

  lemma StoppedMeansAll(c: Codecs, d: DState)
    requires DInv(c, d) && AllStopped(d) && !d.failed
    ensures multiset(d.items) == multiset(d.appended)
  {
    assert d.items[..d.next] == d.items;
    forall x
      ensures multiset(d.items)[x] == multiset(d.appended)[x]
    {
      assert Conserved(d, x);
      NoneInFlight(d.workers, x);
    }
  }

  lemma NoFaultNoFailure(c: Codecs, d: DState, o: Origin, e: Event, d': DState)
    requires DInv(c, d) && StepsTo(c, d, o, e, d') && !IsFault(e) && !HasFailed(d) && d.items != []
    ensures !HasFailed(d')
  {
    if e.Wait? {
      StoppedMeansAll(c, d);
      assert d.items[0] in multiset(d.items);
    }
  }

  lemma FailsByFault(c: Codecs, d: DState, d': DState)
    requires DInv(c, d) && DNext(c, d, d') && HasFailed(d') && !HasFailed(d) && d.items != []
    ensures FaultyStep(c, d, d')
  {
    var o, e :| StepsTo(c, d, o, e, d');
    if !IsFault(e) { NoFaultNoFailure(c, d, o, e, d'); }
  }

  lemma StaysFailed(c: Codecs, d: DState, d': DState)
    requires DNext(c, d, d') && (HasFailed(d) || FaultyStep(c, d, d'))
    ensures HasFailed(d')
  {
    if HasFailed(d) {
      var o, e :| StepsTo(c, d, o, e, d');
    } else {
      var o, e :| IsFault(e) && StepsTo(c, d, o, e, d');
    }
  }

  lemma {:induction false} FailedIff(c: Codecs, r: seq<DState>, i: nat)
    requires IsDRun(c, r) && i < |r| && r[0].items != []
    ensures HasFailed(r[i]) <==> HadFault(c, r, i)
  {
    if i > 0 {
      FailedIff(c, r, i - 1);
      DRunKeepsInv(c, r, i - 1);
      assert DNextAt(c, r, i - 1);
      if HasFailed(r[i - 1]) {
        StaysFailed(c, r[i - 1], r[i]);
      } else if HasFailed(r[i]) {
        FailsByFault(c, r[i - 1], r[i]);
        assert FaultAt(c, r, i - 1);
      } else if HadFault(c, r, i) {
        var k :| 0 <= k < i && FaultAt(c, r, k);
        StaysFailed(c, r[i - 1], r[i]);
      }
    }
  }

  /** A deployment that has come to its end was successful if and only if there was something to deploy
      and no step of it failed. */
  lemma SucceedsIff(c: Codecs, r: seq<DState>)
    requires IsDRun(c, r) && Finished(r[|r| - 1])
    ensures r[|r| - 1].outcome.Deployed? <==> r[0].items != [] && !HadFault(c, r, |r| - 1)
  {
    var d := r[|r| - 1];
    DRunKeepsInv(c, r, |r| - 1);
    if r[0].items != [] {
      FailedIff(c, r, |r| - 1);
    } else if d.outcome.Deployed? {
      DeployedMeansAll(c, d);
    }
  }

  /** No path is submitted with two contents (more exactly, with two digests). */
  ghost predicate OneContentPerPath(c: Codecs, items: seq<Item>) {
    forall x, y :: x in items && y in items && x.path == y.path ==> c.hash(x.content) == c.hash(y.content)
  }

  lemma OneContentDiscriminates(c: Codecs, items: seq<Item>)
    ensures OneContentPerPath(c, items) <==> Discriminates(BY_PATH, c.Entries(items))
  {
    var e := c.Entries(items);
    forall x, y | x in e && y in e
      ensures !BY_PATH(x, y) && !BY_PATH(y, x) <==> x.path == y.path
    {
      LessTrichotomy(x.path, y.path);
    }
    if Discriminates(BY_PATH, e) {
      forall x, y | x in items && y in items && x.path == y.path
        ensures c.hash(x.content) == c.hash(y.content)
      {
        assert c.EntryOf(x) in e && c.EntryOf(y) in e;
      }
    } else {
      var x, y :| x in e && y in e && !BY_PATH(x, y) && !BY_PATH(y, x) && x != y;
      var i :| 0 <= i < |e| && e[i] == x;
      var j :| 0 <= j < |e| && e[j] == y;
      assert items[i] in items && items[j] in items;
    }
  }

  lemma SameInputSameManifest(c: Codecs, d: DState, d': DState)
    requires DInv(c, d) && DInv(c, d') && d.outcome.Deployed? && d'.outcome.Deployed?
    requires multiset(d.items) == multiset(d'.items) && d.metadata == d'.metadata
    requires OneContentPerPath(c, d.items)
    ensures d.outcome == d'.outcome
  {
    DeployedMeansAll(c, d);
    DeployedMeansAll(c, d');
    EntriesKeepMultiset(c, d.items, d'.items);
    OneContentDiscriminates(c, d.items);
    PathOrder();
    SortDeterministicIff(BY_PATH, c.Entries(d.items));
    assert IsSortOf(BY_PATH, c.Entries(d.items), d'.outcome.manifest.files);
  }

  /** Two successful deployments of the same files and metadata agree on the manifest and its ID,
      whatever was scheduled and in whatever order the files came. */
  lemma ScheduleIndependent(c: Codecs, r: seq<DState>, r': seq<DState>)
    requires IsDRun(c, r) && IsDRun(c, r') && r[|r| - 1].outcome.Deployed? && r'[|r'| - 1].outcome.Deployed?
    requires multiset(r[0].items) == multiset(r'[0].items) && r[0].metadata == r'[0].metadata
    requires OneContentPerPath(c, r[0].items)
    ensures r[|r| - 1].outcome == r'[|r'| - 1].outcome
  {
    DRunKeepsInv(c, r, |r| - 1);
    DRunKeepsInv(c, r', |r'| - 1);
    SameInputSameManifest(c, r[|r| - 1], r'[|r'| - 1]);
  }

  /** And that is the exact condition: once all workers have returned, one manifest is possible if
      and only if no path came with two contents. */
  lemma DeterminedIff(c: Codecs, d: DState, o: Origin)
    requires DInv(c, d) && d.outcome.Pending? && AllStopped(d) && !d.failed && d.files != []
    ensures OneContentPerPath(c, d.appended) <==>
            forall a, b :: DStep(c, d, o, Wait(a)).Some? && DStep(c, d, o, Wait(b)).Some? ==> a == b
  {
    PathOrder();
    OneContentDiscriminates(c, d.appended);
    SortDeterministicIff(BY_PATH, d.files);
    assert forall a :: DStep(c, d, o, Wait(a)).Some? <==> IsSortOf(BY_PATH, d.files, a);
  }

  // --- the stores ---

  /** A published manifest is the sorted list of what was submitted, and all of it is stored. */
  ghost predicate ReleaseOk(c: Codecs, o: Origin, r: Release) {
    && r.id == c.hash(c.encode(r.manifest)) && c.encode(r.manifest) in o.seen
    && IsSortOf(BY_PATH, c.Entries(r.items), r.manifest.files)
    && StoredAll(c, o, r.items)
  }

  predicate Stored(c: Codecs, o: Origin, item: Item) {
    c.hash(item.content) in o.files && item.content in o.seen
  }

  ghost predicate StoredAll(c: Codecs, o: Origin, items: seq<Item>) {
    forall i :: 0 <= i < |items| ==> Stored(c, o, items[i])
  }

  ghost predicate FileOk(c: Codecs, o: Origin, id: ObjectID)
    requires id in o.files
  {
    c.hash(o.files[id]) == id && o.files[id] in o.seen
  }

  ghost predicate IsReleased(c: Codecs, o: Origin, id: ObjectID, bytes: Bytes) {
    exists r :: r in o.releases && r.id == id && c.encode(r.manifest) == bytes
  }

  ghost predicate OInv(c: Codecs, o: Origin) {
    && (forall id :: id in o.files ==> FileOk(c, o, id))
    && (forall id :: id in o.manifests ==> IsReleased(c, o, id, o.manifests[id]))
    && (forall r :: r in o.releases ==> ReleaseOk(c, o, r))
  }

  /** What a deployment has listed so far, or is about to list, is in the file store; what it has
      reported as deployed is published. */
  ghost predicate ContentFirst(c: Codecs, d: DState, o: Origin) {
    && StoredAll(c, o, d.appended)
    && (forall w :: 0 <= w < |d.workers| && (d.workers[w].WantMu? || d.workers[w].InMu?) ==> Stored(c, o, d.workers[w].item))
    && (d.outcome.Deployed? ==> Release(d.outcome.id, d.outcome.manifest, d.items) in o.releases)
  }

  predicate Grows(o: Origin, o': Origin) {
    o.files.Keys <= o'.files.Keys && o.manifests.Keys <= o'.manifests.Keys && o.seen <= o'.seen && o.releases <= o'.releases
  }

  lemma StepGrows(c: Codecs, d: DState, o: Origin, e: Event)
    requires DStep(c, d, o, e).Some?
    ensures Grows(o, DStep(c, d, o, e).value.1)
  {
  }

  /** Other deployments cannot take away what one relies on. */
  lemma ContentFirstSurvives(c: Codecs, d: DState, o: Origin, o': Origin)
    requires ContentFirst(c, d, o) && Grows(o, o')
    ensures ContentFirst(c, d, o')
  {
  }

  lemma StoreKeepsContentFirst(c: Codecs, d: DState, o: Origin, e: Event)
    requires ContentFirst(c, d, o) && DStep(c, d, o, e).Some? && e.Store?
    ensures ContentFirst(c, DStep(c, d, o, e).value.0, DStep(c, d, o, e).value.1)
  {
    StepGrows(c, d, o, e);
    ContentFirstSurvives(c, d, o, DStep(c, d, o, e).value.1);
  }

  lemma StepKeepsContentFirst(c: Codecs, d: DState, o: Origin, e: Event)
    requires ContentFirst(c, d, o) && DStep(c, d, o, e).Some?
    ensures ContentFirst(c, DStep(c, d, o, e).value.0, DStep(c, d, o, e).value.1)
  {
    if e.Store? {
      StoreKeepsContentFirst(c, d, o, e);
    } else {
      StepGrows(c, d, o, e);
    }
  }

  lemma StepKeepsOInv(c: Codecs, d: DState, o: Origin, e: Event)
    requires OInv(c, o) && DInv(c, d) && ContentFirst(c, d, o) && DStep(c, d, o, e).Some?
    ensures OInv(c, DStep(c, d, o, e).value.1)
  {
    var o' := DStep(c, d, o, e).value.1;
    StepGrows(c, d, o, e);
    forall r | r in o.releases
      ensures ReleaseOk(c, o', r)
    {
      assert ReleaseOk(c, o, r);
    }
    if e.Publish? && e.how != Nothing {
      var m := d.outcome.manifest;
      DeployedMeansAll(c, d);
      ItemsStored(c, d, o');
      assert ReleaseOk(c, o', Release(c.hash(c.encode(m)), m, d.items));
    }
    forall id | id in o'.manifests
      ensures IsReleased(c, o', id, o'.manifests[id])
    {
      ManifestStaysReleased(c, d, o, e, id);
    }
  }

  lemma ManifestStaysReleased(c: Codecs, d: DState, o: Origin, e: Event, id: ObjectID)
    requires OInv(c, o) && DStep(c, d, o, e).Some? && id in DStep(c, d, o, e).value.1.manifests
    ensures var o' := DStep(c, d, o, e).value.1; IsReleased(c, o', id, o'.manifests[id])
  {
    var o' := DStep(c, d, o, e).value.1;
    if id in o.manifests && o'.manifests[id] == o.manifests[id] {
      var r :| r in o.releases && r.id == id && c.encode(r.manifest) == o.manifests[id];
      assert r in o'.releases;
    } else {
      var r := Release(c.hash(c.encode(d.outcome.manifest)), d.outcome.manifest, d.items);
      assert r in o'.releases && r.id == id && c.encode(r.manifest) == o'.manifests[id];
    }
  }

  lemma ItemsStored(c: Codecs, d: DState, o: Origin)
    requires DInv(c, d) && d.outcome.Publishing? && StoredAll(c, o, d.appended)
    ensures StoredAll(c, o, d.items)
  {
    assert d.items[..d.next] == d.items;
    forall i | 0 <= i < |d.items|
      ensures Stored(c, o, d.items[i])
    {
      var x := d.items[i];
      assert Conserved(d, x);
      NoneInFlight(d.workers, x);
      assert x in multiset(d.items);
      assert x in multiset(d.appended);
      var j :| 0 <= j < |d.appended| && d.appended[j] == x;
    }
  }

  /** At every moment, a manifest in the store is complete: everything it lists is stored under its
      own digest, so a site appears all at once. */
  lemma PublishedIsComplete(c: Codecs, o: Origin, id: ObjectID)
    requires c.Lawful() && OInv(c, o) && id in o.manifests
    ensures c.hash(o.manifests[id]) == id
    ensures c.decode(o.manifests[id]).Some?
    ensures forall f :: f in c.decode(o.manifests[id]).value.files ==>
              f.contentID in o.files && c.hash(o.files[f.contentID]) == f.contentID
  {
    var r :| r in o.releases && r.id == id && c.encode(r.manifest) == o.manifests[id];
    assert c.decode(c.encode(r.manifest)) == Some(r.manifest);
    assert ReleaseOk(c, o, r);
    forall f | f in r.manifest.files
      ensures f.contentID in o.files && c.hash(o.files[f.contentID]) == f.contentID
    {
      var i := ItemBehind(c, r, f);
      assert Stored(c, o, r.items[i]) && FileOk(c, o, f.contentID);
    }
  }

  lemma ItemBehind(c: Codecs, r: Release, f: Entry) returns (i: nat)
    requires IsSortOf(BY_PATH, c.Entries(r.items), r.manifest.files) && f in r.manifest.files
    ensures i < |r.items| && c.EntryOf(r.items[i]) == f
  {
    assert f in multiset(r.manifest.files);
    assert f in multiset(c.Entries(r.items));
    i :| i < |r.items| && c.Entries(r.items)[i] == f;
  }
}
