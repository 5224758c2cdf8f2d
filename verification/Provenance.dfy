/** Where the manifests come from that requests are answered from: everything that is ever decoded as a
    manifest was published as one, or is an object of the file store under the requested ID (a file whose
    content happens to be a manifest, and which is in the disk cache). */
module Provenance {
  import opened Wrappers
  import opened Strings
  import opened ObjectIDs
  import opened MutexMaps
  import opened Hydration
  import opened Resolver
  import opened Content
  import opened Serving
  import opened Pipe
  import opened World
  import Deployment

  predicate Known(o: Origin, id: ObjectID) {
    id in o.files || id in o.manifests
  }

  /** A task that has bytes or a table has them under a known ID. */
  predicate TaskKnown(o: Origin, task: Task) {
    task.NoTask? || task.Resolving? || task.LoadFromOrigin? || Known(o, task.req.manifestID)
  }

  predicate PosKnown(o: Origin, p: Pos<Table>) {
    p.WantMuToPublish? || p.Publishing? ==> Known(o, p.id)
  }

  predicate RecordKnown(o: Origin, rec: Record) {
    rec.table.Some? ==> Known(o, rec.req.manifestID)
  }

  ghost predicate CachesKnown(o: Origin, plain: map<ObjectID, Bytes>, ram: map<ObjectID, Table>) {
    && (forall id :: id in plain ==> Known(o, id))
    && (forall id :: id in ram ==> Known(o, id))
  }

  ghost predicate KInv(w: WState) {
    && CachesKnown(w.origin, w.plain, w.resolver.ram)
    && (forall t :: TaskKnown(w.origin, w.Task(t)))
    && (forall t :: PosKnown(w.origin, w.resolver.Pos(t)))
    && (forall i :: 0 <= i < |w.log| ==> RecordKnown(w.origin, w.log[i]))
  }

  // --- the steps of loading a manifest, and of the resolver ---

  lemma ResolverKeepsKnown(w: WState, t: Tid, m: Move<Table>, w': WState)
    requires KInv(w) && RStep(w.resolver, t, m) == Some(w'.resolver)
    requires w'.origin == w.origin && w'.plain == w.plain && w'.log == w.log
    requires forall u :: u != t ==> w'.Task(u) == w.Task(u)
    requires TaskKnown(w.origin, w'.Task(t))
    requires m.LoadEnds? && m.result.Some? ==> Known(w.origin, w.resolver.Pos(t).id)
    ensures KInv(w')
  {
    TablesComeFromLoads(w.resolver, t, m, w'.resolver);
    RamComesFromPublishing(w.resolver, t, m, w'.resolver);
    OtherPositionsStay(w.resolver, t, m, w'.resolver);
    assert PosKnown(w.origin, w.resolver.Pos(t));
    forall u
      ensures PosKnown(w.origin, w'.resolver.Pos(u)) && TaskKnown(w.origin, w'.Task(u))
    {
      assert PosKnown(w.origin, w.resolver.Pos(u)) && TaskKnown(w.origin, w.Task(u));
    }
  }

  lemma OtherPositionsStay(r: RState<Table>, t: Tid, m: Move<Table>, r': RState<Table>)
    requires RStep(r, t, m) == Some(r')
    ensures forall u :: u != t ==> r'.Pos(u) == r.Pos(u)
  {
  }

  /** A step gives `t` something else to do, and may add a record and known objects to the cache. */
  ghost predicate Adds(w: WState, t: Tid, w': WState) {
    && w'.origin == w.origin && w'.resolver == w.resolver
    && (forall u :: u != t ==> w'.Task(u) == w.Task(u))
    && TaskKnown(w.origin, w'.Task(t))
    && (forall id :: id in w'.plain ==> id in w.plain || Known(w.origin, id))
    && w.log <= w'.log && forall i :: |w.log| <= i < |w'.log| ==> RecordKnown(w.origin, w'.log[i])
  }

  lemma AddsKeepsKnown(w: WState, t: Tid, w': WState)
    requires KInv(w) && Adds(w, t, w')
    ensures KInv(w')
  {
    forall u
      ensures TaskKnown(w'.origin, w'.Task(u)) && PosKnown(w'.origin, w'.resolver.Pos(u))
    {
      assert TaskKnown(w.origin, w.Task(u)) && PosKnown(w.origin, w.resolver.Pos(u));
    }
    forall i | 0 <= i < |w'.log|
      ensures RecordKnown(w'.origin, w'.log[i])
    {
      if i < |w.log| { assert RecordKnown(w.origin, w.log[i]); }
    }
  }

  lemma LoadKeepsKnown(c: Codecs, w: WState, e: WEvent, w': WState)
    requires WInv(c, w) && KInv(w) && LoadStep(c, w, e) == Some(w')
    ensures KInv(w')
  {
    assert TaskOk(c, w.origin.seen, w.resolver.Pos(e.t), w.Task(e.t)) && TaskKnown(w.origin, w.Task(e.t));
    if w'.resolver == w.resolver {
      if e.ManifestFromCache? {
        CacheReadAdds(c, w, e, w');
      } else {
        LoadAdds(c, w, e, w');
      }
      AddsKeepsKnown(w, e.t, w');
    } else {
      LoadEndsKnown(c, w, e, w');
    }
  }

  lemma CacheReadAdds(c: Codecs, w: WState, e: WEvent, w': WState)
    requires LoadStep(c, w, e) == Some(w') && e.ManifestFromCache?
    requires CachesKnown(w.origin, w.plain, w.resolver.ram)
    ensures Adds(w, e.t, w')
  {
  }

  lemma ToCacheAdds(c: Codecs, w: WState, e: WEvent, w': WState)
    requires LoadStep(c, w, e) == Some(w') && e.ManifestToCache? && TaskKnown(w.origin, w.Task(e.t))
    ensures Adds(w, e.t, w')
  {
  }

  lemma LoadAdds(c: Codecs, w: WState, e: WEvent, w': WState)
    requires LoadStep(c, w, e) == Some(w') && !e.ManifestFromCache? && w'.resolver == w.resolver
    requires TaskKnown(w.origin, w.Task(e.t))
    ensures Adds(w, e.t, w')
  {
    if e.ManifestToCache? { ToCacheAdds(c, w, e, w'); }
  }

  lemma LoadEndsKnown(c: Codecs, w: WState, e: WEvent, w': WState)
    requires KInv(w) && LoadStep(c, w, e) == Some(w') && w'.resolver != w.resolver
    requires TaskOk(c, w.origin.seen, w.resolver.Pos(e.t), w.Task(e.t)) && TaskKnown(w.origin, w.Task(e.t))
    ensures KInv(w')
  {
    var m := LoadEnds(
      if e.Decode? && c.decode(w.Task(e.t).bytes).Some? then Some(Optimized(c.decode(w.Task(e.t).bytes).value.files)) else None);
    assert RStep(w.resolver, e.t, m) == Some(w'.resolver);
    ResolverKeepsKnown(w, e.t, m, w');
  }

  // --- the steps of serving ---

  lemma AnswerAdds(w: WState, t: Tid, w': WState)
    requires AnswerStep(w, t) == Some(w')
    requires w.resolver.Pos(t).result.Some? ==> Known(w.origin, w.Task(t).req.manifestID)
    ensures Adds(w, t, w')
  {
  }

  lemma AnswerKnown(c: Codecs, w: WState, t: Tid)
    requires w.Task(t).Resolving? && w.resolver.Pos(t).Returned? && w.resolver.Pos(t).result.Some?
    requires TaskOk(c, w.origin.seen, w.resolver.Pos(t), w.Task(t)) && PosOk(w.resolver, t)
    requires CachesKnown(w.origin, w.plain, w.resolver.ram)
    ensures Known(w.origin, w.Task(t).req.manifestID)
  {
  }

  lemma ReadPlainAdds(w: WState, t: Tid, fault: bool, w': WState)
    requires w.Task(t).TryPlain? && ReadPlainStep(w, t, fault) == Some(w') && TaskKnown(w.origin, w.Task(t))
    ensures Adds(w, t, w')
  {
  }

  lemma ReadGzipAdds(c: Codecs, w: WState, t: Tid, fault: bool)
    requires w.Task(t).TryGzip? && TaskKnown(w.origin, w.Task(t))
    ensures Adds(w, t, ReadGzipStep(c, w, t, fault))
  {
  }

  lemma ServeKeepsKnown(c: Codecs, w: WState, e: WEvent, w': WState)
    requires WInv(c, w) && KInv(w) && ServeStep(c, w, e) == Some(w')
    ensures KInv(w')
  {
    var t := e.t;
    assert Adds(w, t, w') by {
      assert TaskOk(c, w.origin.seen, w.resolver.Pos(t), w.Task(t)) && TaskKnown(w.origin, w.Task(t)) && PosOk(w.resolver, t);
      match e
      case Answer(_) =>
        if w.resolver.Pos(t).result.Some? { AnswerKnown(c, w, t); }
        AnswerAdds(w, t, w');
      case ReadGzip(_, fault) => ReadGzipAdds(c, w, t, fault);
      case ReadPlain(_, fault) => ReadPlainAdds(w, t, fault, w');
    }
    AddsKeepsKnown(w, t, w');
  }

  lemma FillStepAdds(c: Codecs, w: WState, t: Tid, insert: InsertFault, supply: Supply, w': WState)
    requires w.Task(t).Fill? && FillStep(c, w, t, insert, supply) == Some(w') && TaskKnown(w.origin, w.Task(t))
    requires w.Task(t).choice.file.contentID in w.origin.files
    ensures Adds(w, t, w')
  {
  }

  lemma FetchAdds(w: WState, t: Tid, fault: bool, w': WState)
    requires w.Task(t).Hydrate? && FetchStep(w, t, fault) == Some(w') && TaskKnown(w.origin, w.Task(t))
    ensures Adds(w, t, w')
  {
  }

  lemma AfterReleaseAdds(w: WState, t: Tid, w': WState)
    requires w.Task(t).EndHydrate? && AfterReleaseStep(w, t) == Some(w') && TaskKnown(w.origin, w.Task(t))
    ensures Adds(w, t, w')
  {
  }

  lemma HydrateAdds(c: Codecs, w: WState, e: WEvent, w': WState)
    requires HydrateStep(c, w, e) == Some(w') && !e.FillCache? && TaskKnown(w.origin, w.Task(e.t))
    ensures Adds(w, e.t, w')
  {
    match e
    case Fetch(t, fault) => FetchAdds(w, t, fault, w');
    case AfterRelease(t) => AfterReleaseAdds(w, t, w');
    case _ =>
  }

  /** What is being filled in came from the file store. */
  predicate FillFromStore(o: Origin, task: Task) {
    task.Fill? ==> task.choice.file.contentID in o.files
  }

  ghost predicate AllFromStore(w: WState) {
    forall t :: FillFromStore(w.origin, w.Task(t))
  }

  lemma HydrateKeepsKnown(c: Codecs, w: WState, e: WEvent, w': WState)
    requires KInv(w) && AllFromStore(w) && HydrateStep(c, w, e) == Some(w')
    ensures KInv(w')
  {
    assert TaskKnown(w.origin, w.Task(e.t)) && FillFromStore(w.origin, w.Task(e.t));
    if e.FillCache? {
      FillStepAdds(c, w, e.t, e.insert, e.supply, w');
    } else {
      HydrateAdds(c, w, e, w');
    }
    AddsKeepsKnown(w, e.t, w');
  }

  lemma HydrateKeepsFromStore(c: Codecs, w: WState, e: WEvent, w': WState)
    requires AllFromStore(w) && HydrateStep(c, w, e) == Some(w')
    ensures AllFromStore(w')
  {
    forall u
      ensures FillFromStore(w'.origin, w'.Task(u))
    {
      assert FillFromStore(w.origin, w.Task(u));
    }
  }

  // --- deployments only add ---

  lemma DeployKeepsKnown(c: Codecs, w: WState, n: nat, de: Deployment.Event, w': WState)
    requires KInv(w) && AllFromStore(w) && n in w.deploys && DeployStep(c, w, n, de) == Some(w')
    ensures KInv(w') && AllFromStore(w')
  {
    Deployment.StepGrows(c, w.deploys[n], w.origin, de);
    forall t
      ensures TaskKnown(w'.origin, w'.Task(t)) && PosKnown(w'.origin, w'.resolver.Pos(t)) && FillFromStore(w'.origin, w'.Task(t))
    {
      assert TaskKnown(w.origin, w.Task(t)) && PosKnown(w.origin, w.resolver.Pos(t)) && FillFromStore(w.origin, w.Task(t));
    }
    forall i | 0 <= i < |w'.log|
      ensures RecordKnown(w'.origin, w'.log[i])
    {
      assert RecordKnown(w.origin, w.log[i]);
    }
  }

  /** Only a download begins to fill a cache. */
  lemma NoNewFill(c: Codecs, w: WState, e: WEvent, w': WState, u: Tid)
    requires WStep(c, w, e) == Some(w') && !e.Deploy? && !IsHydrateEvent(e) && w'.Task(u).Fill?
    ensures w'.Task(u) == w.Task(u) && w'.origin == w.origin
  {
    if IsLoadEvent(e) {
      LoadNoNewFill(c, w, e, w', u);
    } else if e.Answer? || e.ReadGzip? || e.ReadPlain? {
      ServeNoNewFill(c, w, e, w', u);
    }
  }

  lemma LoadNoNewFill(c: Codecs, w: WState, e: WEvent, w': WState, u: Tid)
    requires LoadStep(c, w, e) == Some(w') && w'.Task(u).Fill?
    ensures w'.Task(u) == w.Task(u) && w'.origin == w.origin
  {
  }

  lemma AnswerNoNewFill(w: WState, t: Tid, w': WState, u: Tid)
    requires AnswerStep(w, t) == Some(w') && w'.Task(u).Fill?
    ensures w'.Task(u) == w.Task(u) && w'.origin == w.origin
  {
  }

  lemma ServeNoNewFill(c: Codecs, w: WState, e: WEvent, w': WState, u: Tid)
    requires ServeStep(c, w, e) == Some(w') && w'.Task(u).Fill?
    ensures w'.Task(u) == w.Task(u) && w'.origin == w.origin
  {
    if e.Answer? {
      AnswerNoNewFill(w, e.t, w', u);
    }
  }

  lemma OthersKeepFromStore(c: Codecs, w: WState, e: WEvent, w': WState)
    requires AllFromStore(w) && WStep(c, w, e) == Some(w') && !e.Deploy? && !IsHydrateEvent(e)
    ensures AllFromStore(w')
  {
    forall u
      ensures FillFromStore(w'.origin, w'.Task(u))
    {
      assert FillFromStore(w.origin, w.Task(u));
      if w'.Task(u).Fill? { NoNewFill(c, w, e, w', u); }
    }
  }

  lemma AskKeepsKnown(c: Codecs, w: WState, e: WEvent, w': WState)
    requires KInv(w) && WStep(c, w, e) == Some(w') && (e.Ask? || e.Resolve?)
    ensures KInv(w')
  {
    assert TaskKnown(w.origin, w.Task(e.t));
    ResolverKeepsKnown(w, e.t, if e.Ask? then Enter(e.req.manifestID) else Go, w');
  }

  lemma LaunchKeepsKnown(w: WState, n: nat, metadata: string, items: seq<Item>, w': WState)
    requires KInv(w) && LaunchStep(w, n, metadata, items) == Some(w')
    ensures KInv(w')
  {
    forall t
      ensures TaskKnown(w'.origin, w'.Task(t)) && PosKnown(w'.origin, w'.resolver.Pos(t))
    {
      assert TaskKnown(w.origin, w.Task(t)) && PosKnown(w.origin, w.resolver.Pos(t));
    }
  }

  lemma RestartKeepsKnown(w: WState)
    requires KInv(w)
    ensures KInv(w.(resolver := Start(), hydration := HStart(), tasks := map[]))
  {
  }

  lemma StepKeepsKnown(c: Codecs, w: WState, e: WEvent, w': WState)
    requires WInv(c, w) && KInv(w) && AllFromStore(w) && WStep(c, w, e) == Some(w')
    ensures KInv(w')
  {
    match e
    case Launch(n, metadata, items) => LaunchKeepsKnown(w, n, metadata, items, w');
    case Deploy(n, de) => DeployKeepsKnown(c, w, n, de, w');
    case Ask(_, _) => AskKeepsKnown(c, w, e, w');
    case Resolve(_) => AskKeepsKnown(c, w, e, w');
    case Restart => RestartKeepsKnown(w);
    case _ => TaskStepKeepsKnown(c, w, e, w');
  }

  lemma TaskStepKeepsKnown(c: Codecs, w: WState, e: WEvent, w': WState)
    requires WInv(c, w) && KInv(w) && AllFromStore(w) && TaskStep(c, w, e) == Some(w')
    ensures KInv(w')
  {
    if IsLoadEvent(e) {
      LoadKeepsKnown(c, w, e, w');
    } else if IsHydrateEvent(e) {
      HydrateKeepsKnown(c, w, e, w');
    } else {
      ServeKeepsKnown(c, w, e, w');
    }
  }

  lemma NextKeepsKnown(c: Codecs, w: WState, w': WState)
    requires WInv(c, w) && KInv(w) && AllFromStore(w) && WNext(c, w, w')
    ensures KInv(w') && AllFromStore(w')
  {
    var e :| WStep(c, w, e) == Some(w');
    StepKeepsKnown(c, w, e, w');
    if e.Deploy? {
      DeployKeepsKnown(c, w, e.n, e.e, w');
    } else if IsHydrateEvent(e) {
      HydrateKeepsFromStore(c, w, e, w');
    } else {
      OthersKeepFromStore(c, w, e, w');
    }
  }

  lemma StartKnown()
    ensures KInv(WStart()) && AllFromStore(WStart())
  {
  }

  lemma {:induction false} AlwaysKnown(c: Codecs, r: seq<WState>, i: nat)
    requires c.Lawful() && IsWRun(c, r) && i < |r|
    ensures KInv(r[i]) && AllFromStore(r[i])
  {
    if i == 0 {
      StartKnown();
    } else {
      AlwaysKnown(c, r, i - 1);
      WRunKeepsInv(c, r, i - 1);
      assert WNextAt(c, r, i - 1);
      NextKeepsKnown(c, r[i - 1], r[i]);
    }
  }

  // --- what it gives ---

  /** `body` is what some release of that ID was given for the path, or for its 404 page. */
  ghost predicate FromRelease(o: Origin, rec: Record, body: Bytes) {
    exists rel :: rel in o.releases && rel.id == rec.req.manifestID && IsDeployedContent(rel.items, rec.req.path, body)
  }

  /** The requested ID was never published; it is that of an object in the file store, which is stored
      under its digest and decodes to the table that was served from. `body` is a content deployed at some
      time, the one whose digest that table gives for the path or the 404 page. */
  ghost predicate FromFile(c: Codecs, o: Origin, rec: Record, body: Bytes) {
    var id := rec.req.manifestID;
    && id !in o.manifests && id in o.files && c.hash(o.files[id]) == id
    && rec.table == (match c.decode(o.files[id]) case None => None case Some(m) => Some(Optimized(m.files)))
    && rec.table.Some? && Choose(rec.table.value, rec.req.path).Some?
    && Genuine(c, o.seen, Choose(rec.table.value, rec.req.path).value.file.contentID, body)
  }

  /** Every body ever sent is accounted for: it is what was deployed under the requested ID, or the
      requested ID is not of a site at all but of a single file. */
  lemma EveryBodyAccounted(c: Codecs, r: seq<WState>, i: nat, k: nat)
    requires c.Lawful() && IsWRun(c, r) && i < |r| && c.NoCollision(r[i].origin.seen)
    requires k < |r[i].log| && r[i].log[k].reply.Full?
    ensures Decoded(c, r[i].log[k].reply).Some?
    ensures var o, rec, body := r[i].origin, r[i].log[k], Decoded(c, r[i].log[k].reply).value;
            FromRelease(o, rec, body) || FromFile(c, o, rec, body)
  {
    WRunKeepsInv(c, r, i);
    AlwaysKnown(c, r, i);
    var o, rec := r[i].origin, r[i].log[k];
    assert RecordOk(c, o.seen, rec) && RecordKnown(o, rec);
    var id := rec.req.manifestID;
    if id in o.manifests {
      assert Deployment.IsReleased(c, o, id, o.manifests[id]);
      var rel :| rel in o.releases && rel.id == id && c.encode(rel.manifest) == o.manifests[id];
      BodyIsDeployed(c, r, i, k, rel);
    } else {
      FileTable(c, o, id, rec.table.value);
    }
  }

  lemma FileTable(c: Codecs, o: Origin, id: ObjectID, table: Table)
    requires c.NoCollision(o.seen) && Deployment.OInv(c, o) && id in o.files && TableOf(c, o.seen, id, table)
    ensures c.hash(o.files[id]) == id && c.decode(o.files[id]).Some?
    ensures table == Optimized(c.decode(o.files[id]).value.files)
  {
    FileIsGenuine(c, o, id);
  }
}
