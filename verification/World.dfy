/** The whole system: any number of deployments into the origin, any number of requests served at
    once from RAM, two disk caches and the origin, and restarts that keep only the disk caches. */
module World {
  import opened Wrappers
  import opened Strings
  import opened ObjectIDs
  import opened MutexMaps
  import opened Hydration
  import opened Resolver
  import opened Content
  import opened Serving
  import opened Pipe
  import opened Filling
  import Deployment
  import Sorting

  /** What a request thread is doing. */
  datatype Task =
    | NoTask
    | Resolving(req: Request)                                 // inside resolveManifest
    | LoadFromOrigin(req: Request)                            // ... missed the disk cache
    | LoadIntoCache(req: Request, bytes: Bytes)               // ... has the manifest from the origin
    | Decoding(req: Request, bytes: Bytes)                    // ... about to decode it
    | TryGzip(req: Request, table: Table, choice: Choice, again: bool)
    | TryPlain(req: Request, table: Table, choice: Choice, again: bool)
    | Hydrate(req: Request, table: Table, choice: Choice)                      // getting or awaiting the file lock
    | Fill(req: Request, table: Table, choice: Choice, content: Bytes)         // has the content from the origin
    | EndHydrate(req: Request, table: Table, choice: Choice, ok: bool)         // giving the file lock back
    | Stuck(req: Request, table: Table, choice: Choice)                        // its download never returns

  /** An answer given, with the table it was looked up in. */
  datatype Record = Record(req: Request, table: Option<Table>, reply: Reply)

  datatype WState = WState(
    origin: Origin,
    deploys: map<nat, Deployment.DState>,
    gzipped: map<ObjectID, Bytes>,
    plain: map<ObjectID, Bytes>,
    resolver: RState<Table>,
    hydration: HState,
    tasks: map<Tid, Task>,
    log: seq<Record>)
  {
    function Task(t: Tid): Task {
      if t in tasks then tasks[t] else NoTask
    }

    function Do(t: Tid, task: Task): WState {
      this.(tasks := tasks[t := task])
    }

    function Reply(t: Tid, record: Record): WState {
      this.(tasks := tasks[t := NoTask], log := log + [record])
    }

    function WithResolver(r: Option<RState<Table>>): Option<WState> {
      if r.None? then None else Some(this.(resolver := r.value))
    }

    function WithHydration(h: Option<HState>): Option<WState> {
      if h.None? then None else Some(this.(hydration := h.value))
    }

    /** The manifest load of `t` ends; it goes on inside resolveManifest. */
    function EndLoad(t: Tid, req: Request, result: Option<Table>): Option<WState> {
      Do(t, Resolving(req)).WithResolver(RStep(resolver, t, LoadEnds(result)))
    }
  }

  /** `fault` is a transient error of the store that is read, or what fails in an insertion into a cache;
      `supply` is what the origin sends; `how` says what became of the manifest's insertion. */
  datatype WEvent =
    | Launch(n: nat, metadata: string, items: seq<Item>)
    | Deploy(n: nat, e: Deployment.Event)
    | Ask(t: Tid, req: Request)
    | Resolve(t: Tid)
    | ManifestFromCache(t: Tid, fault: bool)
    | ManifestFromOrigin(t: Tid, fault: bool)
    | ManifestToCache(t: Tid, how: Write)
    | Decode(t: Tid)
    | Answer(t: Tid)
    | ReadGzip(t: Tid, fault: bool)
    | ReadPlain(t: Tid, fault: bool)
    | FileLock(t: Tid)
    | AfterWait(t: Tid)
    | Fetch(t: Tid, fault: bool)
    | FillCache(t: Tid, insert: InsertFault, supply: Supply)
    | AfterRelease(t: Tid)
    | Restart

  ghost function WStep(c: Codecs, w: WState, e: WEvent): Option<WState> {
    match e
    case Launch(n, metadata, items) => LaunchStep(w, n, metadata, items)
    case Deploy(n, de) => if n in w.deploys then DeployStep(c, w, n, de) else None
    case Ask(t, req) =>
      if w.Task(t).NoTask? then w.Do(t, Resolving(req)).WithResolver(RStep(w.resolver, t, Enter(req.manifestID))) else None
    case Resolve(t) => if w.Task(t).Resolving? then w.WithResolver(RStep(w.resolver, t, Go)) else None
    case Restart => Some(w.(resolver := Start(), hydration := HStart(), tasks := map[]))
    case _ => TaskStep(c, w, e)
  }

  function TaskStep(c: Codecs, w: WState, e: WEvent): Option<WState> {
    if IsLoadEvent(e) then LoadStep(c, w, e)
    else if IsHydrateEvent(e) then HydrateStep(c, w, e)
    else ServeStep(c, w, e)
  }

  predicate IsHydrateEvent(e: WEvent) {
    e.FileLock? || e.AfterWait? || e.Fetch? || e.FillCache? || e.AfterRelease?
  }

  predicate IsLoadEvent(e: WEvent) {
    e.ManifestFromCache? || e.ManifestFromOrigin? || e.ManifestToCache? || e.Decode?
  }

  function LaunchStep(w: WState, n: nat, metadata: string, items: seq<Item>): Option<WState> {
    if n in w.deploys then None
    else Some(w.(deploys := w.deploys[n := Deployment.Begin(metadata, items, Deployment.CONCURRENCY)]))
  }

  ghost function DeployStep(c: Codecs, w: WState, n: nat, de: Deployment.Event): Option<WState>
    requires n in w.deploys
  {
    match Deployment.DStep(c, w.deploys[n], w.origin, de)
    case None => None
    case Some((d, o)) => Some(w.(deploys := w.deploys[n := d], origin := o))
  }

  function LoadStep(c: Codecs, w: WState, e: WEvent): Option<WState> {
    match e
    case ManifestFromCache(t, fault) =>
      if !(w.Task(t).Resolving? && w.resolver.Pos(t).Loading?) then None
      else
        var req := w.Task(t).req;
        if !fault && req.manifestID in w.plain then Some(w.Do(t, Decoding(req, w.plain[req.manifestID])))
        else Some(w.Do(t, LoadFromOrigin(req)))
    case ManifestFromOrigin(t, fault) =>
      if !w.Task(t).LoadFromOrigin? then None
      else
        var req := w.Task(t).req;
        if fault || req.manifestID !in w.origin.manifests then w.EndLoad(t, req, None)
        else Some(w.Do(t, LoadIntoCache(req, w.origin.manifests[req.manifestID])))
    case ManifestToCache(t, how) =>
      if !w.Task(t).LoadIntoCache? then None
      else
        var LoadIntoCache(req, bytes) := w.Task(t);
        Some(w.Do(t, Decoding(req, bytes)).(plain := Inserted(w.plain, req.manifestID, bytes, how)))
    case Decode(t) =>
      if !w.Task(t).Decoding? then None
      else
        var Decoding(req, bytes) := w.Task(t);
        w.EndLoad(t, req, match c.decode(bytes) case None => None case Some(m) => Some(Optimized(m.files)))
    case _ => None
  }

  function ServeStep(c: Codecs, w: WState, e: WEvent): Option<WState> {
    match e
    case Answer(t) => AnswerStep(w, t)
    case ReadGzip(t, fault) => if w.Task(t).TryGzip? then Some(ReadGzipStep(c, w, t, fault)) else None
    case ReadPlain(t, fault) => if w.Task(t).TryPlain? then ReadPlainStep(w, t, fault) else None
    case _ => None
  }

  function AnswerStep(w: WState, t: Tid): Option<WState> {
    if !(w.Task(t).Resolving? && w.resolver.Pos(t).Returned?) then None
    else
      var req := w.Task(t).req;
      if w.resolver.Pos(t).result.None? then Some(w.Reply(t, Record(req, None, ServerError)))
      else
        var table := w.resolver.Pos(t).result.value;
        var choice := Choose(table, req.path);
        if choice.None? then Some(w.Reply(t, Record(req, Some(table), NotFound)))
        else if ClientHasIt(req, choice.value.file) then Some(w.Reply(t, Record(req, Some(table), NotModified)))
        else Some(w.Do(t, TryGzip(req, table, choice.value, false)))
  }

  function ReadGzipStep(c: Codecs, w: WState, t: Tid, fault: bool): WState
    requires w.Task(t).TryGzip?
  {
    var TryGzip(req, table, choice, again) := w.Task(t);
    var id := choice.file.contentID;
    if !fault && id in w.gzipped then w.Reply(t, Record(req, Some(table), ReplyFromGzip(c, req, choice, w.gzipped[id])))
    else w.Do(t, TryPlain(req, table, choice, again))
  }

  function ReadPlainStep(w: WState, t: Tid, fault: bool): Option<WState>
    requires w.Task(t).TryPlain?
  {
    var TryPlain(req, table, choice, again) := w.Task(t);
    var id := choice.file.contentID;
    if !fault && id in w.plain then Some(w.Reply(t, Record(req, Some(table), ReplyFromPlain(choice, w.plain[id]))))
    else if again then Some(w.Reply(t, Record(req, Some(table), NoReply)))
    else w.Do(t, Hydrate(req, table, choice)).WithHydration(HStep(w.hydration, t, Come(id)))
  }

  /** Downloading a file into a cache, under its lock or after whoever has it. */
  function HydrateStep(c: Codecs, w: WState, e: WEvent): Option<WState> {
    match e
    case FileLock(t) =>
      if w.Task(t).Hydrate? || w.Task(t).EndHydrate? then w.WithHydration(HStep(w.hydration, t, Proceed)) else None
    case AfterWait(t) => if w.Task(t).Hydrate? && w.hydration.Pos(t).Waited? then AfterWaitStep(w, t) else None
    case Fetch(t, fault) => if w.Task(t).Hydrate? && w.hydration.Pos(t).Downloading? then FetchStep(w, t, fault) else None
    case FillCache(t, insert, supply) => if w.Task(t).Fill? then FillStep(c, w, t, insert, supply) else None
    case AfterRelease(t) => if w.Task(t).EndHydrate? && w.hydration.Pos(t).Released? then AfterReleaseStep(w, t) else None
    case _ => None
  }

  function AfterWaitStep(w: WState, t: Tid): Option<WState>
    requires w.Task(t).Hydrate?
  {
    var Hydrate(req, table, choice) := w.Task(t);
    w.Do(t, TryGzip(req, table, choice, true)).WithHydration(HStep(w.hydration, t, Leave))
  }

  function FetchStep(w: WState, t: Tid, fault: bool): Option<WState>
    requires w.Task(t).Hydrate?
  {
    var Hydrate(req, table, choice) := w.Task(t);
    var id := choice.file.contentID;
    if fault || id !in w.origin.files then
      w.Do(t, EndHydrate(req, table, choice, false)).WithHydration(HStep(w.hydration, t, EndDownload))
    else Some(w.Do(t, Fill(req, table, choice, w.origin.files[id])))
  }

  function FillStep(c: Codecs, w: WState, t: Tid, insert: InsertFault, supply: Supply): Option<WState>
    requires w.Task(t).Fill?
  {
    var Fill(req, table, choice, content) := w.Task(t);
    match FillCaches(c, w.gzipped, w.plain, choice.file, content, insert, supply)
    case Hangs => w.Do(t, Stuck(req, table, choice)).WithHydration(HStep(w.hydration, t, Hang))
    case Ends(gzipped, plain, ok) =>
      w.(gzipped := gzipped, plain := plain).Do(t, EndHydrate(req, table, choice, ok))
        .WithHydration(HStep(w.hydration, t, EndDownload))
  }

  function AfterReleaseStep(w: WState, t: Tid): Option<WState>
    requires w.Task(t).EndHydrate?
  {
    var EndHydrate(req, table, choice, ok) := w.Task(t);
    var w' := if ok then w.Do(t, TryGzip(req, table, choice, true)) else w.Reply(t, Record(req, Some(table), NoReply));
    w'.WithHydration(HStep(w.hydration, t, Leave))
  }

  function WStart(): WState {
    WState(Origin(map[], map[], {}, {}), map[], map[], map[], Start(), HStart(), map[], [])
  }

  ghost predicate WNext(c: Codecs, w: WState, w': WState) {
    exists e :: WStep(c, w, e) == Some(w')
  }

  ghost predicate WNextAt(c: Codecs, r: seq<WState>, i: nat)
    requires i < |r| - 1
  {
    WNext(c, r[i], r[i + 1])
  }

  ghost predicate IsWRun(c: Codecs, r: seq<WState>) {
    |r| > 0 && r[0] == WStart() && forall i :: 0 <= i < |r| - 1 ==> WNextAt(c, r, i)
  }

  // --- the invariant ---

  ghost predicate ChosenFrom(c: Codecs, seen: set<Bytes>, req: Request, table: Table, choice: Choice) {
    && TableOf(c, seen, req.manifestID, table)
    && Choose(table, req.path) == Some(choice) && !ClientHasIt(req, choice.file)
  }

  /** What a task knows, `p` being where its thread is in resolveManifest. */
  ghost predicate TaskOk(c: Codecs, seen: set<Bytes>, p: Pos<Table>, task: Task) {
    match task
    case NoTask => true
    case Resolving(req) => !p.Idle? && p.id == req.manifestID
    case LoadFromOrigin(req) => p.Loading? && p.id == req.manifestID
    case LoadIntoCache(req, bytes) => p.Loading? && p.id == req.manifestID && Genuine(c, seen, p.id, bytes)
    case Decoding(req, bytes) => p.Loading? && p.id == req.manifestID && Genuine(c, seen, p.id, bytes)
    case TryGzip(req, table, choice, _) => ChosenFrom(c, seen, req, table, choice)
    case TryPlain(req, table, choice, _) => ChosenFrom(c, seen, req, table, choice)
    case Hydrate(req, table, choice) => ChosenFrom(c, seen, req, table, choice)
    case Fill(req, table, choice, content) =>
      ChosenFrom(c, seen, req, table, choice) && Genuine(c, seen, choice.file.contentID, content)
    case EndHydrate(req, table, choice, _) => ChosenFrom(c, seen, req, table, choice)
    case Stuck(req, table, choice) => ChosenFrom(c, seen, req, table, choice)
  }

  /** A manifest about to be published in RAM was made from the bytes of its ID. */
  ghost predicate CarriesTable(c: Codecs, seen: set<Bytes>, p: Pos<Table>) {
    p.WantMuToPublish? || p.Publishing? ==> TableOf(c, seen, p.id, p.v)
  }

  ghost predicate RecordOk(c: Codecs, seen: set<Bytes>, rec: Record) {
    rec.reply.ServerError? || rec.reply.NoReply? || (
      && rec.table.Some? && TableOf(c, seen, rec.req.manifestID, rec.table.value)
      && var choice := Choose(rec.table.value, rec.req.path);
         if rec.reply.NotFound? then choice.None?
         else
           && choice.Some?
           && (rec.reply.NotModified? <==> ClientHasIt(rec.req, choice.value.file))
           && (rec.reply.Full? ==> FullOk(c, seen, rec.req, choice.value, rec.reply)))
  }

  ghost predicate DeployOk(c: Codecs, o: Origin, d: Deployment.DState) {
    Deployment.DInv(c, d) && Deployment.ContentFirst(c, d, o)
  }

  ghost predicate DeploysOk(c: Codecs, o: Origin, deploys: map<nat, Deployment.DState>) {
    Deployment.OInv(c, o) && forall n :: n in deploys ==> DeployOk(c, o, deploys[n])
  }

  ghost predicate ResolverOk(c: Codecs, seen: set<Bytes>, r: RState<Table>) {
    && RInv(r)
    && (forall id :: id in r.ram ==> TableOf(c, seen, id, r.ram[id]))
    && (forall t :: CarriesTable(c, seen, r.Pos(t)))
  }

  ghost predicate TasksOk(c: Codecs, w: WState) {
    forall t :: TaskOk(c, w.origin.seen, w.resolver.Pos(t), w.Task(t))
  }

  ghost predicate LogOk(c: Codecs, seen: set<Bytes>, log: seq<Record>) {
    forall i :: 0 <= i < |log| ==> RecordOk(c, seen, log[i])
  }

  ghost predicate WInv(c: Codecs, w: WState) {
    && DeploysOk(c, w.origin, w.deploys)
    && CachesOk(c, w.origin.seen, w.gzipped, w.plain)
    && ResolverOk(c, w.origin.seen, w.resolver)
    && TasksOk(c, w)
    && LogOk(c, w.origin.seen, w.log)
  }

  // --- deployments only add to what is known ---

  lemma TableOfGrows(c: Codecs, seen: set<Bytes>, seen': set<Bytes>, id: ObjectID, table: Table)
    requires TableOf(c, seen, id, table) && seen <= seen'
    ensures TableOf(c, seen', id, table)
  {
    var b :| Genuine(c, seen, id, b) && c.decode(b).Some? && table == Optimized(c.decode(b).value.files);
    assert Genuine(c, seen', id, b);
  }

  lemma TaskOkGrows(c: Codecs, seen: set<Bytes>, seen': set<Bytes>, p: Pos<Table>, task: Task)
    requires TaskOk(c, seen, p, task) && seen <= seen'
    ensures TaskOk(c, seen', p, task)
  {
    if task.TryGzip? || task.TryPlain? || task.Hydrate? || task.Fill? || task.EndHydrate? || task.Stuck? {
      TableOfGrows(c, seen, seen', task.req.manifestID, task.table);
    }
  }

  lemma RecordOkGrows(c: Codecs, seen: set<Bytes>, seen': set<Bytes>, rec: Record)
    requires RecordOk(c, seen, rec) && seen <= seen'
    ensures RecordOk(c, seen', rec)
  {
    if !rec.reply.ServerError? && !rec.reply.NoReply? {
      TableOfGrows(c, seen, seen', rec.req.manifestID, rec.table.value);
    }
  }

  lemma ResolverOkGrows(c: Codecs, seen: set<Bytes>, seen': set<Bytes>, r: RState<Table>)
    requires ResolverOk(c, seen, r) && seen <= seen'
    ensures ResolverOk(c, seen', r)
  {
    forall id | id in r.ram
      ensures TableOf(c, seen', id, r.ram[id])
    {
      TableOfGrows(c, seen, seen', id, r.ram[id]);
    }
    forall t
      ensures CarriesTable(c, seen', r.Pos(t))
    {
      var p := r.Pos(t);
      assert CarriesTable(c, seen, p);
      if p.WantMuToPublish? || p.Publishing? {
        TableOfGrows(c, seen, seen', p.id, p.v);
      }
    }
  }

  lemma DeployKeepsInv(c: Codecs, w: WState, n: nat, de: Deployment.Event, w': WState)
    requires WInv(c, w) && WStep(c, w, Deploy(n, de)) == Some(w')
    ensures WInv(c, w')
  {
    var d, o := w.deploys[n], w.origin;
    assert DeployOk(c, o, d);
    Deployment.StepKeepsDInv(c, d, o, de);
    Deployment.StepKeepsContentFirst(c, d, o, de);
    Deployment.StepKeepsOInv(c, d, o, de);
    Deployment.StepGrows(c, d, o, de);
    OriginGrows(c, w, w', n);
  }

  lemma OriginGrows(c: Codecs, w: WState, w': WState, n: nat)
    requires WInv(c, w) && n in w.deploys && n in w'.deploys
    requires w' == w.(deploys := w.deploys[n := w'.deploys[n]], origin := w'.origin)
    requires Deployment.Grows(w.origin, w'.origin)
    requires Deployment.OInv(c, w'.origin) && DeployOk(c, w'.origin, w'.deploys[n])
    ensures WInv(c, w')
  {
    var seen, seen' := w.origin.seen, w'.origin.seen;
    ResolverOkGrows(c, seen, seen', w.resolver);
    forall m | m in w'.deploys
      ensures DeployOk(c, w'.origin, w'.deploys[m])
    {
      if m != n {
        assert DeployOk(c, w.origin, w.deploys[m]);
        Deployment.ContentFirstSurvives(c, w.deploys[m], w.origin, w'.origin);
      }
    }
    forall t
      ensures TaskOk(c, seen', w'.resolver.Pos(t), w'.Task(t))
    {
      assert TaskOk(c, seen, w.resolver.Pos(t), w.Task(t));
      TaskOkGrows(c, seen, seen', w.resolver.Pos(t), w.Task(t));
    }
    forall i | 0 <= i < |w'.log|
      ensures RecordOk(c, seen', w'.log[i])
    {
      assert RecordOk(c, seen, w.log[i]);
      RecordOkGrows(c, seen, seen', w.log[i]);
    }
  }

  // --- the resolver's steps ---

  lemma SameIdAfterGo(r: RState<Table>, t: Tid, r': RState<Table>)
    requires GoStep(r, t) == Some(r')
    ensures !r.Pos(t).Idle? && !r.Pos(t).Loading? && !r'.Pos(t).Idle? && r'.Pos(t).id == r.Pos(t).id
  {
  }

  lemma SameIdAfterLoad(r: RState<Table>, t: Tid, result: Option<Table>, r': RState<Table>)
    requires RStep(r, t, LoadEnds(result)) == Some(r')
    ensures r.Pos(t).Loading? && !r'.Pos(t).Idle? && r'.Pos(t).id == r.Pos(t).id
  {
  }

  lemma SameId(r: RState<Table>, t: Tid, m: Move<Table>, r': RState<Table>)
    requires RStep(r, t, m) == Some(r') && !m.Enter?
    ensures !r.Pos(t).Idle? && !r'.Pos(t).Idle? && r'.Pos(t).id == r.Pos(t).id
    ensures m.LoadEnds? ==> r.Pos(t).Loading?
    ensures m.Go? ==> !r.Pos(t).Loading?
  {
    match m
    case LoadEnds(result) => SameIdAfterLoad(r, t, result, r');
    case _ => SameIdAfterGo(r, t, r');
  }

  /** Only a successful load brings in a new table. */
  lemma TablesComeFromLoads(r: RState<Table>, t: Tid, m: Move<Table>, r': RState<Table>)
    requires RStep(r, t, m) == Some(r')
    ensures var p, p' := r.Pos(t), r'.Pos(t);
            p'.WantMuToPublish? || p'.Publishing? ==>
              (m == LoadEnds(Some(p'.v)) && p'.id == p.id) || ((p.WantMuToPublish? || p.Publishing?) && p.id == p'.id && p.v == p'.v)
  {
  }

  lemma RamComesFromPublishing(r: RState<Table>, t: Tid, m: Move<Table>, r': RState<Table>)
    requires RStep(r, t, m) == Some(r')
    ensures r'.ram == r.ram || (r.Pos(t).Publishing? && r'.ram == r.ram[r.Pos(t).id := r.Pos(t).v])
  {
  }

  lemma ResolverStepOk(c: Codecs, seen: set<Bytes>, r: RState<Table>, t: Tid, m: Move<Table>, r': RState<Table>)
    requires ResolverOk(c, seen, r) && RStep(r, t, m) == Some(r')
    requires m.LoadEnds? && m.result.Some? && r.Pos(t).Loading? ==> TableOf(c, seen, r.Pos(t).id, m.result.value)
    ensures ResolverOk(c, seen, r')
    ensures forall u :: u != t ==> r'.Pos(u) == r.Pos(u)
  {
    RStepKeepsInv(r, t, m, r');
    TablesComeFromLoads(r, t, m, r');
    RamComesFromPublishing(r, t, m, r');
    if m.LoadEnds? { SameId(r, t, m, r'); }
    assert CarriesTable(c, seen, r.Pos(t));
    forall u
      ensures CarriesTable(c, seen, r'.Pos(u))
    {
      if u != t {
        assert r'.Pos(u) == r.Pos(u) && CarriesTable(c, seen, r.Pos(u));
      }
    }
  }

  /** A resolver step of `t` that leaves its task in order keeps everything in order. */
  lemma ResolverMoves(c: Codecs, w: WState, t: Tid, m: Move<Table>, w': WState)
    requires WInv(c, w) && RStep(w.resolver, t, m) == Some(w'.resolver)
    requires w' == w.(resolver := w'.resolver, tasks := w.tasks[t := w'.Task(t)]) || w' == w.(resolver := w'.resolver)
    requires m.LoadEnds? && m.result.Some? && w.resolver.Pos(t).Loading? ==>
               TableOf(c, w.origin.seen, w.resolver.Pos(t).id, m.result.value)
    requires TaskOk(c, w.origin.seen, w'.resolver.Pos(t), w'.Task(t))
    ensures WInv(c, w')
  {
    ResolverStepOk(c, w.origin.seen, w.resolver, t, m, w'.resolver);
    forall u
      ensures TaskOk(c, w'.origin.seen, w'.resolver.Pos(u), w'.Task(u))
    {
      if u != t {
        assert TaskOk(c, w.origin.seen, w.resolver.Pos(u), w.Task(u));
        assert w'.Task(u) == w.Task(u) && w'.resolver.Pos(u) == w.resolver.Pos(u);
      }
    }
  }

  lemma EndLoadKeepsInv(c: Codecs, w: WState, t: Tid, result: Option<Table>, w': WState)
    requires WInv(c, w) && (w.Task(t).LoadFromOrigin? || w.Task(t).Decoding?)
    requires w.EndLoad(t, w.Task(t).req, result) == Some(w')
    requires result.Some? ==> TableOf(c, w.origin.seen, w.Task(t).req.manifestID, result.value)
    ensures WInv(c, w')
  {
    assert TaskOk(c, w.origin.seen, w.resolver.Pos(t), w.Task(t));
    SameId(w.resolver, t, LoadEnds(result), w'.resolver);
    ResolverMoves(c, w, t, LoadEnds(result), w');
  }

  /** A step that only gives `t` something else to do. */
  lemma DoKeepsInv(c: Codecs, w: WState, t: Tid, task: Task)
    requires WInv(c, w) && TaskOk(c, w.origin.seen, w.resolver.Pos(t), task)
    ensures WInv(c, w.Do(t, task))
  {
    var w' := w.Do(t, task);
    forall u
      ensures TaskOk(c, w'.origin.seen, w'.resolver.Pos(u), w'.Task(u))
    {
      assert TaskOk(c, w.origin.seen, w.resolver.Pos(u), w.Task(u));
    }
  }

  lemma ReplyKeepsInv(c: Codecs, w: WState, t: Tid, rec: Record)
    requires WInv(c, w) && RecordOk(c, w.origin.seen, rec)
    ensures WInv(c, w.Reply(t, rec))
  {
    DoKeepsInv(c, w, t, NoTask);
    assert w.Reply(t, rec) == w.Do(t, NoTask).(log := w.log + [rec]);
    assert TasksOk(c, w.Do(t, NoTask)) ==> TasksOk(c, w.Reply(t, rec)) by {
      assert forall u :: w.Reply(t, rec).Task(u) == w.Do(t, NoTask).Task(u);
    }
  }

  lemma CachesKeepInv(c: Codecs, w: WState, gzipped: map<ObjectID, Bytes>, plain: map<ObjectID, Bytes>)
    requires WInv(c, w) && CachesOk(c, w.origin.seen, gzipped, plain)
    ensures WInv(c, w.(gzipped := gzipped, plain := plain))
  {
    var w' := w.(gzipped := gzipped, plain := plain);
    forall u
      ensures TaskOk(c, w'.origin.seen, w'.resolver.Pos(u), w'.Task(u))
    {
      assert TaskOk(c, w.origin.seen, w.resolver.Pos(u), w.Task(u));
    }
  }

  /** The invariant does not speak of the file lock. */
  lemma HydrationKeepsInv(c: Codecs, w: WState, h: HState)
    requires WInv(c, w)
    ensures WInv(c, w.(hydration := h))
  {
    var w' := w.(hydration := h);
    forall u
      ensures TaskOk(c, w'.origin.seen, w'.resolver.Pos(u), w'.Task(u))
    {
      assert TaskOk(c, w.origin.seen, w.resolver.Pos(u), w.Task(u));
    }
  }

  lemma CacheReadKeepsInv(c: Codecs, w: WState, e: WEvent, w': WState)
    requires WInv(c, w) && LoadStep(c, w, e) == Some(w') && e.ManifestFromCache?
    ensures WInv(c, w')
  {
    assert TaskOk(c, w.origin.seen, w.resolver.Pos(e.t), w.Task(e.t));
    DoKeepsInv(c, w, e.t, w'.Task(e.t));
  }

  lemma CacheWriteKeepsInv(c: Codecs, w: WState, e: WEvent, w': WState)
    requires WInv(c, w) && LoadStep(c, w, e) == Some(w') && e.ManifestToCache?
    ensures WInv(c, w')
  {
    assert TaskOk(c, w.origin.seen, w.resolver.Pos(e.t), w.Task(e.t));
    var LoadIntoCache(req, bytes) := w.Task(e.t);
    InsertedPlainOk(c, w.origin.seen, w.plain, req.manifestID, bytes, e.how);
    CachesKeepInv(c, w, w.gzipped, w'.plain);
    DoKeepsInv(c, w.(plain := w'.plain), e.t, w'.Task(e.t));
  }

  lemma OriginReadKeepsInv(c: Codecs, w: WState, e: WEvent, w': WState)
    requires WInv(c, w) && LoadStep(c, w, e) == Some(w') && e.ManifestFromOrigin?
    ensures WInv(c, w')
  {
    assert TaskOk(c, w.origin.seen, w.resolver.Pos(e.t), w.Task(e.t));
    var id := w.Task(e.t).req.manifestID;
    if e.fault || id !in w.origin.manifests {
      EndLoadKeepsInv(c, w, e.t, None, w');
    } else {
      ManifestIsGenuine(c, w.origin, id);
      DoKeepsInv(c, w, e.t, w'.Task(e.t));
    }
  }

  lemma DecodeKeepsInv(c: Codecs, w: WState, e: WEvent, w': WState)
    requires WInv(c, w) && LoadStep(c, w, e) == Some(w') && e.Decode?
    ensures WInv(c, w')
  {
    assert TaskOk(c, w.origin.seen, w.resolver.Pos(e.t), w.Task(e.t));
    var b := w.Task(e.t).bytes;
    assert Genuine(c, w.origin.seen, w.Task(e.t).req.manifestID, b);
    EndLoadKeepsInv(c, w, e.t, if c.decode(b).None? then None else Some(Optimized(c.decode(b).value.files)), w');
  }

  lemma ManifestIsGenuine(c: Codecs, o: Origin, id: ObjectID)
    requires Deployment.OInv(c, o) && id in o.manifests
    ensures Genuine(c, o.seen, id, o.manifests[id])
  {
    assert Deployment.IsReleased(c, o, id, o.manifests[id]);
    var r :| r in o.releases && r.id == id && c.encode(r.manifest) == o.manifests[id];
    assert Deployment.ReleaseOk(c, o, r);
  }

  lemma AnswerKeepsInv(c: Codecs, w: WState, t: Tid, w': WState)
    requires WInv(c, w) && AnswerStep(w, t) == Some(w')
    ensures WInv(c, w')
  {
    var p, req := w.resolver.Pos(t), w.Task(t).req;
    assert TaskOk(c, w.origin.seen, p, w.Task(t));
    assert PosOk(w.resolver, t);
    if p.result.None? {
      ReplyKeepsInv(c, w, t, Record(req, None, ServerError));
    } else {
      assert TableOf(c, w.origin.seen, req.manifestID, p.result.value);
      var choice := Choose(p.result.value, req.path);
      if choice.None? {
        ReplyKeepsInv(c, w, t, Record(req, p.result, NotFound));
      } else if ClientHasIt(req, choice.value.file) {
        ReplyKeepsInv(c, w, t, Record(req, p.result, NotModified));
      } else {
        DoKeepsInv(c, w, t, TryGzip(req, p.result.value, choice.value, false));
      }
    }
  }

  lemma ReadGzipKeepsInv(c: Codecs, w: WState, t: Tid, fault: bool)
    requires WInv(c, w) && w.Task(t).TryGzip?
    ensures WInv(c, ReadGzipStep(c, w, t, fault))
  {
    assert TaskOk(c, w.origin.seen, w.resolver.Pos(t), w.Task(t));
    var TryGzip(req, table, choice, again) := w.Task(t);
    var id := choice.file.contentID;
    if !fault && id in w.gzipped {
      assert GenuineGzip(c, w.origin.seen, id, w.gzipped[id]);
      ReplyKeepsInv(c, w, t, Record(req, Some(table), ReplyFromGzip(c, req, choice, w.gzipped[id])));
    } else {
      DoKeepsInv(c, w, t, TryPlain(req, table, choice, again));
    }
  }

  lemma ReadPlainKeepsInv(c: Codecs, w: WState, t: Tid, fault: bool, w': WState)
    requires WInv(c, w) && w.Task(t).TryPlain? && ReadPlainStep(w, t, fault) == Some(w')
    ensures WInv(c, w')
  {
    assert TaskOk(c, w.origin.seen, w.resolver.Pos(t), w.Task(t));
    var TryPlain(req, table, choice, again) := w.Task(t);
    var id := choice.file.contentID;
    if !fault && id in w.plain {
      ReplyKeepsInv(c, w, t, Record(req, Some(table), ReplyFromPlain(choice, w.plain[id])));
    } else if again {
      ReplyKeepsInv(c, w, t, Record(req, Some(table), NoReply));
    } else {
      DoKeepsInv(c, w, t, Hydrate(req, table, choice));
      HydrationKeepsInv(c, w.Do(t, Hydrate(req, table, choice)), w'.hydration);
    }
  }

  lemma AfterWaitKeepsInv(c: Codecs, w: WState, t: Tid, w': WState)
    requires WInv(c, w) && w.Task(t).Hydrate? && AfterWaitStep(w, t) == Some(w')
    ensures WInv(c, w')
  {
    assert TaskOk(c, w.origin.seen, w.resolver.Pos(t), w.Task(t));
    var Hydrate(req, table, choice) := w.Task(t);
    DoKeepsInv(c, w, t, TryGzip(req, table, choice, true));
    HydrationKeepsInv(c, w.Do(t, TryGzip(req, table, choice, true)), w'.hydration);
  }

  lemma FetchKeepsInv(c: Codecs, w: WState, t: Tid, fault: bool, w': WState)
    requires WInv(c, w) && w.Task(t).Hydrate? && FetchStep(w, t, fault) == Some(w')
    ensures WInv(c, w')
  {
    var Hydrate(req, table, choice) := w.Task(t);
    assert TaskOk(c, w.origin.seen, w.resolver.Pos(t), w.Task(t));
    var id := choice.file.contentID;
    if fault || id !in w.origin.files {
      DoKeepsInv(c, w, t, EndHydrate(req, table, choice, false));
      HydrationKeepsInv(c, w.Do(t, EndHydrate(req, table, choice, false)), w'.hydration);
    } else {
      FileIsGenuine(c, w.origin, id);
      DoKeepsInv(c, w, t, Fill(req, table, choice, w.origin.files[id]));
    }
  }

  lemma FileIsGenuine(c: Codecs, o: Origin, id: ObjectID)
    requires Deployment.OInv(c, o) && id in o.files
    ensures Genuine(c, o.seen, id, o.files[id])
  {
    assert Deployment.FileOk(c, o, id);
  }

  lemma FilledOk(c: Codecs, seen: set<Bytes>, gzipped: map<ObjectID, Bytes>, plain: map<ObjectID, Bytes>,
                 file: Entry, content: Bytes, insert: InsertFault, supply: Supply)
    requires c.Lawful() && CachesOk(c, seen, gzipped, plain) && Genuine(c, seen, file.contentID, content)
    ensures var f := FillCaches(c, gzipped, plain, file, content, insert, supply); f.Ends? ==> CachesOk(c, seen, f.gzipped, f.plain)
  {
    var id, f := file.contentID, FillCaches(c, gzipped, plain, file, content, insert, supply);
    if f.Ends? {
      var how := if f.ok then IfAbsent else Nothing;
      FillAdds(c, gzipped, plain, file, content, insert, supply);
      if CompressesWell(file.path) {
        assert c.gunzip(c.gzip(content)) == Some(content);
        InsertedGzipOk(c, seen, gzipped, id, c.gzip(content), how);
      } else {
        InsertedPlainOk(c, seen, plain, id, content, how);
      }
    }
  }

  lemma FillKeepsInv(c: Codecs, w: WState, t: Tid, insert: InsertFault, supply: Supply, w': WState)
    requires c.Lawful() && WInv(c, w) && w.Task(t).Fill? && FillStep(c, w, t, insert, supply) == Some(w')
    ensures WInv(c, w')
  {
    assert TaskOk(c, w.origin.seen, w.resolver.Pos(t), w.Task(t));
    var Fill(req, table, choice, content) := w.Task(t);
    FilledOk(c, w.origin.seen, w.gzipped, w.plain, choice.file, content, insert, supply);
    var f := FillCaches(c, w.gzipped, w.plain, choice.file, content, insert, supply);
    if f.Hangs? {
      FilledKeepsInv(c, w, t, w.gzipped, w.plain, Stuck(req, table, choice), w'.hydration);
    } else {
      FillEnds(c, w, t, insert, supply, w');
      FilledKeepsInv(c, w, t, f.gzipped, f.plain, EndHydrate(req, table, choice, f.ok), w'.hydration);
    }
  }

  lemma FillEnds(c: Codecs, w: WState, t: Tid, insert: InsertFault, supply: Supply, w': WState)
    requires w.Task(t).Fill? && FillStep(c, w, t, insert, supply) == Some(w')
    ensures var Fill(req, table, choice, content) := w.Task(t);
            var f := FillCaches(c, w.gzipped, w.plain, choice.file, content, insert, supply);
            f.Ends? ==> w' == w.(gzipped := f.gzipped, plain := f.plain).Do(t, EndHydrate(req, table, choice, f.ok))
                                .(hydration := w'.hydration)
  {
  }

  lemma FilledKeepsInv(c: Codecs, w: WState, t: Tid, gzipped: map<ObjectID, Bytes>, plain: map<ObjectID, Bytes>, task: Task,
                       h: HState)
    requires WInv(c, w) && CachesOk(c, w.origin.seen, gzipped, plain) && TaskOk(c, w.origin.seen, w.resolver.Pos(t), task)
    ensures WInv(c, w.(gzipped := gzipped, plain := plain).Do(t, task).(hydration := h))
  {
    CachesKeepInv(c, w, gzipped, plain);
    var w1 := w.(gzipped := gzipped, plain := plain);
    DoKeepsInv(c, w1, t, task);
    HydrationKeepsInv(c, w1.Do(t, task), h);
  }

  lemma AfterReleaseKeepsInv(c: Codecs, w: WState, t: Tid, w': WState)
    requires WInv(c, w) && w.Task(t).EndHydrate? && AfterReleaseStep(w, t) == Some(w')
    ensures WInv(c, w')
  {
    assert TaskOk(c, w.origin.seen, w.resolver.Pos(t), w.Task(t));
    var EndHydrate(req, table, choice, ok) := w.Task(t);
    if ok {
      DoKeepsInv(c, w, t, TryGzip(req, table, choice, true));
      HydrationKeepsInv(c, w.Do(t, TryGzip(req, table, choice, true)), w'.hydration);
    } else {
      ReplyKeepsInv(c, w, t, Record(req, Some(table), NoReply));
      HydrationKeepsInv(c, w.Reply(t, Record(req, Some(table), NoReply)), w'.hydration);
    }
  }

  lemma InsertedGzipOk(c: Codecs, seen: set<Bytes>, store: map<ObjectID, Bytes>, id: ObjectID, b: Bytes, how: Write)
    requires (forall k :: k in store ==> GenuineGzip(c, seen, k, store[k])) && GenuineGzip(c, seen, id, b)
    ensures forall k :: k in Inserted(store, id, b, how) ==> GenuineGzip(c, seen, k, Inserted(store, id, b, how)[k])
  {
  }

  lemma InsertedPlainOk(c: Codecs, seen: set<Bytes>, store: map<ObjectID, Bytes>, id: ObjectID, b: Bytes, how: Write)
    requires (forall k :: k in store ==> Genuine(c, seen, k, store[k])) && Genuine(c, seen, id, b)
    ensures forall k :: k in Inserted(store, id, b, how) ==> Genuine(c, seen, k, Inserted(store, id, b, how)[k])
  {
  }

  lemma StartInv()
    ensures RInv(Start<Table>())
  {
  }

  lemma LaunchKeepsInv(c: Codecs, w: WState, n: nat, metadata: string, items: seq<Item>, w': WState)
    requires WInv(c, w) && LaunchStep(w, n, metadata, items) == Some(w')
    ensures WInv(c, w')
  {
    Deployment.BeginInv(c, metadata, items, Deployment.CONCURRENCY);
  }

  lemma RestartKeepsInv(c: Codecs, w: WState)
    requires WInv(c, w)
    ensures WInv(c, w.(resolver := Start(), hydration := HStart(), tasks := map[]))
  {
    StartInv();
  }

  lemma AskKeepsInv(c: Codecs, w: WState, t: Tid, req: Request, w': WState)
    requires WInv(c, w) && w.Do(t, Resolving(req)).WithResolver(RStep(w.resolver, t, Enter(req.manifestID))) == Some(w')
    ensures WInv(c, w')
  {
    ResolverMoves(c, w, t, Enter(req.manifestID), w');
  }

  lemma ResolveKeepsInv(c: Codecs, w: WState, t: Tid, w': WState)
    requires WInv(c, w) && w.Task(t).Resolving? && w.WithResolver(RStep(w.resolver, t, Go)) == Some(w')
    ensures WInv(c, w')
  {
    assert TaskOk(c, w.origin.seen, w.resolver.Pos(t), w.Task(t));
    SameId(w.resolver, t, Go, w'.resolver);
    ResolverMoves(c, w, t, Go, w');
  }

  lemma WStepKeepsInv(c: Codecs, w: WState, e: WEvent, w': WState)
    requires c.Lawful() && WInv(c, w) && WStep(c, w, e) == Some(w')
    ensures WInv(c, w')
  {
    match e
    case Launch(n, metadata, items) => LaunchKeepsInv(c, w, n, metadata, items, w');
    case Deploy(n, de) => DeployKeepsInv(c, w, n, de, w');
    case Ask(t, req) => AskKeepsInv(c, w, t, req, w');
    case Resolve(t) => ResolveKeepsInv(c, w, t, w');
    case Restart => RestartKeepsInv(c, w);
    case _ => TaskStepKeepsInv(c, w, e, w');
  }

  lemma TaskStepKeepsInv(c: Codecs, w: WState, e: WEvent, w': WState)
    requires c.Lawful() && WInv(c, w) && TaskStep(c, w, e) == Some(w')
    ensures WInv(c, w')
  {
    if IsHydrateEvent(e) {
      HydrateStepKeepsInv(c, w, e, w');
    } else {
      match e
      case ManifestFromOrigin(_, _) => OriginReadKeepsInv(c, w, e, w');
      case Decode(_) => DecodeKeepsInv(c, w, e, w');
      case Answer(t) => AnswerKeepsInv(c, w, t, w');
      case ReadGzip(t, fault) => ReadGzipKeepsInv(c, w, t, fault);
      case ReadPlain(t, fault) => ReadPlainKeepsInv(c, w, t, fault, w');
      case ManifestToCache(_, _) => CacheWriteKeepsInv(c, w, e, w');
      case _ => CacheReadKeepsInv(c, w, e, w');
    }
  }

  lemma HydrateStepKeepsInv(c: Codecs, w: WState, e: WEvent, w': WState)
    requires c.Lawful() && WInv(c, w) && HydrateStep(c, w, e) == Some(w')
    ensures WInv(c, w')
  {
    match e
    case AfterWait(t) => AfterWaitKeepsInv(c, w, t, w');
    case Fetch(t, fault) => FetchKeepsInv(c, w, t, fault, w');
    case FillCache(t, insert, supply) => FillKeepsInv(c, w, t, insert, supply, w');
    case AfterRelease(t) => AfterReleaseKeepsInv(c, w, t, w');
    case _ => HydrationKeepsInv(c, w, w'.hydration);
  }

  lemma {:induction false} WRunKeepsInv(c: Codecs, r: seq<WState>, i: nat)
    requires c.Lawful() && IsWRun(c, r) && i < |r|
    ensures WInv(c, r[i])
  {
    if i == 0 {
      StartInv();
    } else {
      WRunKeepsInv(c, r, i - 1);
      assert WNextAt(c, r, i - 1);
      NextKeepsWInv(c, r[i - 1], r[i]);
    }
  }

  lemma NextKeepsWInv(c: Codecs, w: WState, w': WState)
    requires c.Lawful() && WInv(c, w) && WNext(c, w, w')
    ensures WInv(c, w')
  {
    var e :| WStep(c, w, e) == Some(w');
    WStepKeepsInv(c, w, e, w');
  }

  // --- what it gives ---

  /** Inside every run of the system, what the resolver has done since the last restart is one of its
      own runs: the theorems of module Resolver speak of the requests here. */
  lemma {:induction false} ResolverRunInside(c: Codecs, r: seq<WState>, i: nat) returns (q: seq<RState<Table>>)
    requires IsWRun(c, r) && i < |r|
    ensures IsRRun(q) && q[|q| - 1] == r[i].resolver
  {
    if i == 0 {
      q := [Start()];
    } else {
      q := ResolverRunInside(c, r, i - 1);
      assert WNextAt(c, r, i - 1);
      NextMovesResolver(c, r[i - 1], r[i]);
      if r[i].resolver == Start() {
        q := [Start()];
      } else if r[i].resolver != r[i - 1].resolver {
        ExtendRun(q, r[i].resolver);
        q := q + [r[i].resolver];
      }
    }
  }

  lemma NextMovesResolver(c: Codecs, w: WState, w': WState)
    requires WNext(c, w, w')
    ensures w'.resolver == w.resolver || w'.resolver == Start() || RNext(w.resolver, w'.resolver)
  {
    var e :| WStep(c, w, e) == Some(w');
    match e
    case Deploy(n, de) =>
    case Ask(t, req) => assert RStep(w.resolver, t, Enter(req.manifestID)) == Some(w'.resolver);
    case Resolve(t) => assert RStep(w.resolver, t, Go) == Some(w'.resolver);
    case ManifestFromOrigin(t, _) => LoadMovesResolver(c, w, e, w');
    case Decode(t) => LoadMovesResolver(c, w, e, w');
    case _ => OthersKeepResolver(c, w, e, w');
  }

  lemma LoadMovesResolver(c: Codecs, w: WState, e: WEvent, w': WState)
    requires LoadStep(c, w, e) == Some(w')
    ensures w'.resolver == w.resolver || RNext(w.resolver, w'.resolver)
  {
    if w'.resolver != w.resolver {
      var m := LoadEnds(
        if e.Decode? && c.decode(w.Task(e.t).bytes).Some? then Some(Optimized(c.decode(w.Task(e.t).bytes).value.files)) else None);
      assert RStep(w.resolver, e.t, m) == Some(w'.resolver);
    }
  }

  lemma OthersKeepResolver(c: Codecs, w: WState, e: WEvent, w': WState)
    requires WStep(c, w, e) == Some(w')
    requires !e.Deploy? && !e.Ask? && !e.Resolve? && !e.ManifestFromOrigin? && !e.Decode?
    ensures w'.resolver == w.resolver || w'.resolver == Start()
  {
    if e.Launch? || e.Restart? {
    } else if IsHydrateEvent(e) {
      HydrateKeepsResolver(c, w, e, w');
    } else if !IsLoadEvent(e) {
      ServeKeepsResolver(c, w, e, w');
    }
  }

  lemma HydrateKeepsResolver(c: Codecs, w: WState, e: WEvent, w': WState)
    requires HydrateStep(c, w, e) == Some(w')
    ensures w'.resolver == w.resolver
  {
  }

  lemma ServeKeepsResolver(c: Codecs, w: WState, e: WEvent, w': WState)
    requires ServeStep(c, w, e) == Some(w')
    ensures w'.resolver == w.resolver
  {
  }

  lemma ExtendRun(q: seq<RState<Table>>, s: RState<Table>)
    requires IsRRun(q) && RNext(q[|q| - 1], s)
    ensures IsRRun(q + [s])
  {
    var q' := q + [s];
    forall i | 0 <= i < |q'| - 1
      ensures RNextAt(q', i)
    {
      assert i < |q| - 1 ==> RNextAt(q, i);
    }
  }

  ghost predicate HasPath(items: seq<Item>, path: string) {
    exists x :: x in items && x.path == path
  }

  /** The path whose content a request for `path` is answered with. */
  ghost function ServedPath(items: seq<Item>, path: string): string {
    if HasPath(items, path) then path else "/404.html"
  }

  /** `b` is what was deployed for the path that the release serves for `path`. */
  ghost predicate IsDeployedContent(items: seq<Item>, path: string, b: Bytes) {
    Item(ServedPath(items, path), b) in items
  }

  lemma TableIsUnique(c: Codecs, seen: set<Bytes>, id: ObjectID, table: Table, table': Table)
    requires c.NoCollision(seen) && TableOf(c, seen, id, table) && TableOf(c, seen, id, table')
    ensures table == table'
  {
  }

  lemma TableOfRelease(c: Codecs, o: Origin, rel: Release, table: Table)
    requires c.Lawful() && Deployment.OInv(c, o) && c.NoCollision(o.seen) && rel in o.releases
    requires TableOf(c, o.seen, rel.id, table)
    ensures table == Optimized(rel.manifest.files)
  {
    assert Deployment.ReleaseOk(c, o, rel);
    assert c.decode(c.encode(rel.manifest)) == Some(rel.manifest);
    assert Genuine(c, o.seen, rel.id, c.encode(rel.manifest));
    TableIsUnique(c, o.seen, rel.id, table, Optimized(rel.manifest.files));
  }

  /** The table of a release chooses, for every path, a file that was deployed for the served path. */
  lemma ChosenWasDeployed(c: Codecs, o: Origin, rel: Release, path: string)
    requires Deployment.OInv(c, o) && rel in o.releases
    ensures var choice := Choose(Optimized(rel.manifest.files), path);
            && (choice.Some? <==> HasPath(rel.items, ServedPath(rel.items, path)))
            && (choice.Some? ==>
                  && choice.value.status == (if HasPath(rel.items, path) then 200 else 404)
                  && exists x :: x in rel.items && x.path == ServedPath(rel.items, path)
                                 && choice.value.file.contentID == c.hash(x.content) && x.content in o.seen)
  {
    assert Deployment.ReleaseOk(c, o, rel);
    PathsOfTable(c, rel, path);
    PathsOfTable(c, rel, NOT_FOUND_PAGE);
    var choice := Choose(Optimized(rel.manifest.files), path);
    if choice.Some? {
      OptimizedHasAll(rel.manifest.files);
      var i := Deployment.ItemBehind(c, rel, choice.value.file);
      assert rel.items[i] in rel.items && Deployment.Stored(c, o, rel.items[i]);
    }
  }

  lemma PathsOfTable(c: Codecs, rel: Release, path: string)
    requires Sorting.IsSortOf(Deployment.BY_PATH, c.Entries(rel.items), rel.manifest.files)
    ensures path in Optimized(rel.manifest.files) <==> HasPath(rel.items, path)
  {
    var files := rel.manifest.files;
    OptimizedHasAll(files);
    if path in Optimized(files) {
      var i := Deployment.ItemBehind(c, rel, Optimized(files)[path]);
      assert rel.items[i] in rel.items;
    }
    if x :| x in rel.items && x.path == path {
      var i :| 0 <= i < |rel.items| && rel.items[i] == x;
      assert c.Entries(rel.items)[i] in multiset(c.Entries(rel.items));
      assert c.EntryOf(x) in multiset(files);
    }
  }

  /** Every full answer ever given for a published manifest decodes to exactly the bytes deployed for
      the path, or for the 404 page, with the status to match. */
  lemma BodyIsDeployed(c: Codecs, r: seq<WState>, i: nat, k: nat, rel: Release)
    requires c.Lawful() && IsWRun(c, r) && i < |r| && c.NoCollision(r[i].origin.seen)
    requires k < |r[i].log| && r[i].log[k].reply.Full?
    requires rel in r[i].origin.releases && rel.id == r[i].log[k].req.manifestID
    ensures var rec := r[i].log[k];
            && Decoded(c, rec.reply).Some?
            && IsDeployedContent(rel.items, rec.req.path, Decoded(c, rec.reply).value)
            && rec.reply.status == if HasPath(rel.items, rec.req.path) then 200 else 404
  {
    WRunKeepsInv(c, r, i);
    var o, rec := r[i].origin, r[i].log[k];
    assert RecordOk(c, o.seen, rec);
    TableOfRelease(c, o, rel, rec.table.value);
    ChosenWasDeployed(c, o, rel, rec.req.path);
    var choice := Choose(rec.table.value, rec.req.path).value;
    var x :| x in rel.items && x.path == ServedPath(rel.items, rec.req.path)
             && choice.file.contentID == c.hash(x.content) && x.content in o.seen;
    assert Decoded(c, rec.reply).value == x.content;
    assert x == Item(ServedPath(rel.items, rec.req.path), x.content);
  }

  /** From deployment to client: what `Deploy` was given and reported under an ID is what every later
      full answer for that ID carries. */
  lemma DeployedIsServed(c: Codecs, r: seq<WState>, i: nat, n: nat, k: nat)
    requires c.Lawful() && IsWRun(c, r) && i < |r| && c.NoCollision(r[i].origin.seen)
    requires n in r[i].deploys && r[i].deploys[n].outcome.Deployed?
    requires k < |r[i].log| && r[i].log[k].reply.Full? && r[i].log[k].req.manifestID == r[i].deploys[n].outcome.id
    ensures Decoded(c, r[i].log[k].reply).Some?
    ensures IsDeployedContent(r[i].deploys[n].items, r[i].log[k].req.path, Decoded(c, r[i].log[k].reply).value)
  {
    WRunKeepsInv(c, r, i);
    var d := r[i].deploys[n];
    assert DeployOk(c, r[i].origin, d);
    BodyIsDeployed(c, r, i, k, Release(d.outcome.id, d.outcome.manifest, d.items));
  }

  /** A manifest ID and a path mean the same content in every answer ever given, so going back to an
      old manifest ID gives back exactly the old site. */
  lemma SameContentForEver(c: Codecs, r: seq<WState>, i: nat, k: nat, l: nat)
    requires c.Lawful() && IsWRun(c, r) && i < |r| && c.NoCollision(r[i].origin.seen)
    requires k < |r[i].log| && l < |r[i].log| && r[i].log[k].reply.Full?
    requires r[i].log[k].req.manifestID == r[i].log[l].req.manifestID && r[i].log[k].req.path == r[i].log[l].req.path
    ensures var a, b := r[i].log[k].reply, r[i].log[l].reply;
            && !b.NotFound?
            && (b.Full? ==> a.status == b.status && Decoded(c, a) == Decoded(c, b))
  {
    WRunKeepsInv(c, r, i);
    var seen, a, b := r[i].origin.seen, r[i].log[k], r[i].log[l];
    assert RecordOk(c, seen, a) && RecordOk(c, seen, b);
    if b.reply.NotFound? || b.reply.Full? {
      TableIsUnique(c, seen, a.req.manifestID, a.table.value, b.table.value);
    }
  }

  /** A client that sends back the ETag of a full answer, in whichever encoding it got that, is told "not
      modified" if its request is now mapped to the same content, whatever manifest it is for. */
  lemma RevalidationWorks(c: Codecs, r: seq<WState>, i: nat, k: nat, l: nat, choice: Choice, now: Choice)
    requires c.Lawful() && IsWRun(c, r) && i < |r| && k < |r[i].log| && l < |r[i].log|
    requires r[i].log[k].reply.Full? && r[i].log[k].table.Some? && r[i].log[l].table.Some?
    requires Choose(r[i].log[k].table.value, r[i].log[k].req.path) == Some(choice)
    requires Choose(r[i].log[l].table.value, r[i].log[l].req.path) == Some(now)
    requires now.file.contentID == choice.file.contentID && r[i].log[l].req.ifNoneMatch == r[i].log[k].reply.etag
    ensures r[i].log[l].reply.NotModified? || r[i].log[l].reply.ServerError? || r[i].log[l].reply.NoReply?
  {
    WRunKeepsInv(c, r, i);
    assert RecordOk(c, r[i].origin.seen, r[i].log[k]) && RecordOk(c, r[i].origin.seen, r[i].log[l]);
  }

  /** A client that is told "not modified" for an ETag it got with some earlier full answer (for
      whatever manifest or path) holds what the manifest it now asks maps the path to. */
  lemma NotModifiedIsSound(c: Codecs, r: seq<WState>, i: nat, k: nat, l: nat, rel: Release)
    requires c.Lawful() && IsWRun(c, r) && i < |r| && c.NoCollision(r[i].origin.seen)
    requires k < |r[i].log| && l < |r[i].log| && r[i].log[k].reply.Full? && r[i].log[l].reply.NotModified?
    requires r[i].log[l].req.ifNoneMatch == r[i].log[k].reply.etag
    requires rel in r[i].origin.releases && rel.id == r[i].log[l].req.manifestID
    ensures Decoded(c, r[i].log[k].reply).Some?
    ensures IsDeployedContent(rel.items, r[i].log[l].req.path, Decoded(c, r[i].log[k].reply).value)
  {
    WRunKeepsInv(c, r, i);
    var o, held, now := r[i].origin, r[i].log[k], r[i].log[l];
    assert RecordOk(c, o.seen, held) && RecordOk(c, o.seen, now);
    TableOfRelease(c, o, rel, now.table.value);
    ChosenWasDeployed(c, o, rel, now.req.path);
    var file, heldFile := Choose(now.table.value, now.req.path).value.file, Choose(held.table.value, held.req.path).value.file;
    ETagsNeverCollide(file.contentID, heldFile.contentID);
    ETagsNeverCollide(heldFile.contentID, file.contentID);
    var x :| x in rel.items && x.path == ServedPath(rel.items, now.req.path)
             && file.contentID == c.hash(x.content) && x.content in o.seen;
    assert Decoded(c, held.reply).value == x.content;
    assert x == Item(ServedPath(rel.items, now.req.path), x.content);
  }

  /** At every step of any number of deployments, finished, failing or under way, a manifest that is
      in the store is complete: all that it lists is stored, under its own digest. */
  lemma SitesAppearAtOnce(c: Codecs, r: seq<WState>, i: nat, id: ObjectID)
    requires c.Lawful() && IsWRun(c, r) && i < |r| && id in r[i].origin.manifests
    ensures var o := r[i].origin;
            && c.hash(o.manifests[id]) == id && c.decode(o.manifests[id]).Some?
            && forall f :: f in c.decode(o.manifests[id]).value.files ==>
                 f.contentID in o.files && c.hash(o.files[f.contentID]) == f.contentID
  {
    WRunKeepsInv(c, r, i);
    Deployment.PublishedIsComplete(c, r[i].origin, id);
  }
}
