/** Requests served one after the other, by processes that may be restarted over the same disk; the
    disk caches and the origin may fail at any point. A request whose download hangs never returns, and
    the requests after it meet the lock it keeps. */
module Sequential {
  import opened Wrappers
  import opened Strings
  import opened ObjectIDs
  import opened Content
  import opened Serving
  import opened Pipe
  import opened Filling
  import Deployment
  import World

  /** Both disk caches, the manifests in RAM, and the contents whose file lock is kept for ever by a
      request whose download hangs. */
  datatype Cache = Cache(
    gzipped: map<ObjectID, Bytes>,
    plain: map<ObjectID, Bytes>,
    ram: map<ObjectID, Table>,
    held: set<ObjectID>)
  {
    predicate Has(id: ObjectID) {
      id in gzipped || id in plain
    }
  }

  /** What fails while one request is served: reading or inserting the manifest in the disk cache, asking
      the origin, reading the two caches, filling one of them from what the origin sends, and reading them
      again. */
  datatype Faults = Faults(
    manifest: bool,
    manifestInsert: InsertFault,
    origin: bool,
    gzip: bool,
    plain: bool,
    insert: InsertFault,
    supply: Supply,
    gzipAgain: bool,
    plainAgain: bool)
  {
    /** All is well but perhaps that the origin cannot be reached; what it sends, it sends to the end. */
    predicate CachesWork() {
      && !manifest && manifestInsert.NoFault? && !gzip && !plain && insert.NoFault? && !supply.breaks
      && !gzipAgain && !plainAgain
    }
  }

  /** One request, the state of the origin at that time, and what fails. */
  datatype Call = Call(req: Request, origin: Origin, faults: Faults)

  datatype Op = Serve(call: Call) | Restart

  /** `fetched` is the file content that was downloaded, by a download that came to an end. A call that
      does not return waits for ever, without an answer. */
  datatype Outcome = Outcome(reply: Reply, cache: Cache, fetched: Option<ObjectID>, returned: bool)

  function FromOrigin(store: map<ObjectID, Bytes>, id: ObjectID, fault: bool): Option<Bytes> {
    if fault || id !in store then None else Some(store[id])
  }

  function ManifestBytes(d: Cache, o: Origin, f: Faults, id: ObjectID): Option<Bytes> {
    match ReadFrom(d.plain, id, f.manifest)
    case Ok(bytes) => Some(bytes)
    case Err(_) => FromOrigin(o.manifests, id, f.origin)
  }

  function TableFrom(c: Codecs, bytes: Option<Bytes>): Option<Table> {
    if bytes.None? || c.decode(bytes.value).None? then None
    else Some(Optimized(c.decode(bytes.value).value.files))
  }

  /** The disk cache of manifests after one was looked for; that it cannot be filled does not matter. */
  function PlainAfterManifest(d: Cache, o: Origin, f: Faults, id: ObjectID): map<ObjectID, Bytes> {
    var fetched := FromOrigin(o.manifests, id, f.origin);
    if ReadFrom(d.plain, id, f.manifest).Ok? || fetched.None? then d.plain
    else InsertInto(d.plain, id, fetched.value, f.manifestInsert).0
  }

  function TableOfManifest(c: Codecs, d: Cache, o: Origin, f: Faults, id: ObjectID): Option<Table> {
    if id in d.ram then Some(d.ram[id]) else TableFrom(c, ManifestBytes(d, o, f, id))
  }

  function AfterManifest(c: Codecs, d: Cache, o: Origin, f: Faults, id: ObjectID): Cache {
    if id in d.ram then d
    else
      var table := TableOfManifest(c, d, o, f, id);
      d.(plain := PlainAfterManifest(d, o, f, id), ram := if table.None? then d.ram else d.ram[id := table.value])
  }

  function FromCache(c: Codecs, d: Cache, req: Request, choice: Choice, gzipFault: bool, plainFault: bool): Option<Reply> {
    match ReadFrom(d.gzipped, choice.file.contentID, gzipFault)
    case Ok(b) => Some(ReplyFromGzip(c, req, choice, b))
    case Err(_) =>
      match ReadFrom(d.plain, choice.file.contentID, plainFault)
      case Ok(b) => Some(ReplyFromPlain(choice, b))
      case Err(_) => None
  }

  function FillFor(c: Codecs, d: Cache, file: Entry, content: Bytes, f: Faults): Filling {
    FillCaches(c, d.gzipped, d.plain, file, content, f.insert, f.supply)
  }

  function Deliver(c: Codecs, d: Cache, call: Call, choice: Choice): Outcome {
    var id, f := choice.file.contentID, call.faults;
    var hit := FromCache(c, d, call.req, choice, f.gzip, f.plain);
    if hit.Some? then Outcome(hit.value, d, None, true)
    else if id in d.held then Outcome(NoReply, d, None, false)
    else
      var content := FromOrigin(call.origin.files, id, f.origin);
      if content.None? then Outcome(NoReply, d, None, true) else Downloaded(c, d, call, choice, content.value)
  }

  function Downloaded(c: Codecs, d: Cache, call: Call, choice: Choice, content: Bytes): Outcome {
    match FillFor(c, d, choice.file, content, call.faults)
    case Hangs => Outcome(NoReply, d.(held := d.held + {choice.file.contentID}), None, false)
    case Ends(gzipped, plain, ok) =>
      var d' := d.(gzipped := gzipped, plain := plain);
      var again := if ok then FromCache(c, d', call.req, choice, call.faults.gzipAgain, call.faults.plainAgain) else None;
      Outcome(if again.None? then NoReply else again.value, d', Some(choice.file.contentID), true)
  }

  function ServeCall(c: Codecs, d: Cache, call: Call): Outcome {
    var id := call.req.manifestID;
    var table := TableOfManifest(c, d, call.origin, call.faults, id);
    var d' := AfterManifest(c, d, call.origin, call.faults, id);
    if table.None? then Outcome(ServerError, d', None, true)
    else
      var choice := Choose(table.value, call.req.path);
      if choice.None? then Outcome(NotFound, d', None, true)
      else if ClientHasIt(call.req, choice.value.file) then Outcome(NotModified, d', None, true)
      else Deliver(c, d', call, choice.value)
  }

  // --- any number of calls and restarts, from empty caches ---

  function Do(c: Codecs, d: Cache, op: Op): Cache {
    match op
    case Serve(call) => ServeCall(c, d, call).cache
    case Restart => d.(ram := map[], held := {})
  }

  function After(c: Codecs, ops: seq<Op>): Cache {
    if ops == [] then Cache(map[], map[], map[], {}) else Do(c, After(c, ops[..|ops| - 1]), ops[|ops| - 1])
  }

  function OutcomeAt(c: Codecs, ops: seq<Op>, i: nat): Outcome
    requires i < |ops| && ops[i].Serve?
  {
    ServeCall(c, After(c, ops[..i]), ops[i].call)
  }

  function Fetched(c: Codecs, ops: seq<Op>): seq<ObjectID> {
    if ops == [] then []
    else
      var n := |ops| - 1;
      Fetched(c, ops[..n]) +
      if ops[n].Serve? && OutcomeAt(c, ops, n).fetched.Some? then [OutcomeAt(c, ops, n).fetched.value] else []
  }

  function Count(ids: seq<ObjectID>, id: ObjectID): nat {
    multiset(ids)[id]
  }

  ghost predicate CachesAlwaysWork(ops: seq<Op>) {
    forall i :: 0 <= i < |ops| && ops[i].Serve? ==> ops[i].call.faults.CachesWork()
  }

  ghost predicate NeverAskedAsManifest(ops: seq<Op>, id: ObjectID) {
    forall i :: 0 <= i < |ops| && ops[i].Serve? ==> ops[i].call.req.manifestID != id
  }

  // --- what is cached stays ---

  /** What is cached under `id` neither goes nor changes, nor gets a second copy in the gzipped cache. */
  ghost predicate Keeps(d: Cache, d': Cache, id: ObjectID) {
    && (id in d.gzipped ==> id in d'.gzipped && d'.gzipped[id] == d.gzipped[id])
    && (id in d.plain ==> id in d'.plain && d'.plain[id] == d.plain[id])
    && (d.Has(id) && id in d'.gzipped ==> id in d.gzipped)
  }

  lemma DeliverKeeps(c: Codecs, d: Cache, call: Call, choice: Choice, id: ObjectID)
    requires call.faults.CachesWork()
    ensures Keeps(d, Deliver(c, d, call, choice).cache, id)
  {
  }

  lemma DeliverKeepsRest(c: Codecs, d: Cache, call: Call, choice: Choice)
    requires call.faults.CachesWork()
    ensures var e := Deliver(c, d, call, choice).cache; e.ram == d.ram && e.held == d.held
  {
  }

  lemma ServeKeepsCached(c: Codecs, d: Cache, call: Call, id: ObjectID)
    requires call.faults.CachesWork()
    ensures Keeps(d, ServeCall(c, d, call).cache, id)
  {
    var d' := AfterManifest(c, d, call.origin, call.faults, call.req.manifestID);
    assert Keeps(d, d', id);
    var table := TableOfManifest(c, d, call.origin, call.faults, call.req.manifestID);
    if table.Some? && Choose(table.value, call.req.path).Some? {
      DeliverKeeps(c, d', call, Choose(table.value, call.req.path).value, id);
    }
  }

  lemma {:induction false} CachedStays(c: Codecs, ops: seq<Op>, i: nat, j: nat, id: ObjectID)
    requires i <= j <= |ops| && CachesAlwaysWork(ops)
    ensures Keeps(After(c, ops[..i]), After(c, ops[..j]), id)
    decreases j - i
  {
    if i < j {
      CachedStays(c, ops, i, j - 1, id);
      assert ops[..j][..j - 1] == ops[..j - 1];
      if ops[j - 1].Serve? {
        ServeKeepsCached(c, After(c, ops[..j - 1]), ops[j - 1].call, id);
      }
    }
  }

  // --- downloads ---

  /** The file that a call is answered with, if its manifest can be had and lists one. */
  function ChoiceOf(c: Codecs, d: Cache, call: Call): Option<Choice> {
    var table := TableOfManifest(c, d, call.origin, call.faults, call.req.manifestID);
    if table.None? then None else Choose(table.value, call.req.path)
  }

  /** Only the chosen file is ever downloaded, only if no cache has it, and into the cache its name selects. */
  lemma DownloadIsPlaced(c: Codecs, d: Cache, call: Call, id: ObjectID)
    requires call.faults.CachesWork() && ServeCall(c, d, call).fetched == Some(id)
    ensures var choice, e := ChoiceOf(c, d, call), ServeCall(c, d, call).cache;
            && choice.Some? && id == choice.value.file.contentID && !d.Has(id) && id in call.origin.files
            && IsPlaced(c, e, choice.value.file.path, id, call.origin.files[id])
  {
    var d' := AfterManifest(c, d, call.origin, call.faults, call.req.manifestID);
    var choice := ChoiceOf(c, d, call).value;
    assert ServeCall(c, d, call) == Deliver(c, d', call, choice);
    assert FromCache(c, d', call.req, choice, false, false).None?;
  }

  /** The content is in the gzipped cache if its name says that it compresses well, else in the other only. */
  predicate IsPlaced(c: Codecs, d: Cache, path: string, id: ObjectID, content: Bytes) {
    if CompressesWell(path) then id in d.gzipped && d.gzipped[id] == c.gzip(content)
    else id !in d.gzipped && id in d.plain && d.plain[id] == content
  }

  lemma DeliverAdds(c: Codecs, d: Cache, call: Call, choice: Choice, id: ObjectID)
    requires call.faults.CachesWork()
    ensures var out := Deliver(c, d, call, choice);
            && (out.fetched == Some(id) <==> !d.Has(id) && out.cache.Has(id))
            && (!(id in d.gzipped && id in d.plain) ==> !(id in out.cache.gzipped && id in out.cache.plain))
  {
  }

  /** A request enters nothing but its manifest and what it fetched, and that into one cache only. */
  lemma ServeAdds(c: Codecs, d: Cache, call: Call, id: ObjectID)
    requires call.faults.CachesWork() && id != call.req.manifestID
    ensures var out := ServeCall(c, d, call);
            && (out.fetched == Some(id) <==> !d.Has(id) && out.cache.Has(id))
            && (!(id in d.gzipped && id in d.plain) ==> !(id in out.cache.gzipped && id in out.cache.plain))
  {
    var d' := AfterManifest(c, d, call.origin, call.faults, call.req.manifestID);
    assert d'.gzipped == d.gzipped && (id in d'.plain <==> id in d.plain);
    var choice := ChoiceOf(c, d, call);
    if choice.Some? {
      DeliverAdds(c, d', call, choice.value, id);
    }
  }

  /** A content that is no requested manifest is downloaded at most once in a lifetime of the disk,
      namely exactly if it is cached in the end, and then in one of the two caches only. */
  lemma {:induction false} DownloadedAtMostOnce(c: Codecs, ops: seq<Op>, id: ObjectID)
    requires CachesAlwaysWork(ops) && NeverAskedAsManifest(ops, id)
    ensures Count(Fetched(c, ops), id) == if After(c, ops).Has(id) then 1 else 0
    ensures !(id in After(c, ops).gzipped && id in After(c, ops).plain)
  {
    if ops != [] {
      var n := |ops| - 1;
      DownloadedAtMostOnce(c, ops[..n], id);
      if ops[n].Serve? {
        ServeAdds(c, After(c, ops[..n]), ops[n].call, id);
        ServeKeepsCached(c, After(c, ops[..n]), ops[n].call, id);
      }
    }
  }

  /** What was downloaded was in no cache before, was the file the request was for, and is from then on,
      whatever else is requested and however often processes are restarted, in the cache that the name it
      was first requested under selects; and it is never downloaded again. */
  lemma DownloadedWhereItBelongs(c: Codecs, ops: seq<Op>, i: nat, j: nat, id: ObjectID)
    requires CachesAlwaysWork(ops) && i < j <= |ops| && ops[i].Serve? && OutcomeAt(c, ops, i).fetched == Some(id)
    ensures var before, call := After(c, ops[..i]), ops[i].call;
            var choice := ChoiceOf(c, before, call);
            && choice.Some? && id == choice.value.file.contentID && !before.Has(id) && id in call.origin.files
            && IsPlaced(c, After(c, ops[..j]), choice.value.file.path, id, call.origin.files[id])
    ensures forall k :: 0 <= k < |ops| && ops[k].Serve? && OutcomeAt(c, ops, k).fetched == Some(id) ==> k == i
  {
    assert ops[..i + 1][..i] == ops[..i];
    DownloadIsPlaced(c, After(c, ops[..i]), ops[i].call, id);
    CachedStays(c, ops, i + 1, j, id);
    forall k | 0 <= k < |ops| && ops[k].Serve? && OutcomeAt(c, ops, k).fetched == Some(id)
      ensures k == i
    {
      if k < i { NotAgain(c, ops, k, i, id); } else if i < k { NotAgain(c, ops, i, k, id); }
    }
  }

  lemma NotAgain(c: Codecs, ops: seq<Op>, i: nat, k: nat, id: ObjectID)
    requires CachesAlwaysWork(ops) && i < k < |ops| && ops[i].Serve? && ops[k].Serve?
    requires OutcomeAt(c, ops, i).fetched == Some(id)
    ensures OutcomeAt(c, ops, k).fetched != Some(id)
  {
    assert ops[..i + 1][..i] == ops[..i];
    DownloadIsPlaced(c, After(c, ops[..i]), ops[i].call, id);
    CachedStays(c, ops, i + 1, k, id);
    if OutcomeAt(c, ops, k).fetched == Some(id) {
      DownloadIsPlaced(c, After(c, ops[..k]), ops[k].call, id);
      assert false;
    }
  }

  // --- RAM is only a copy ---

  /** RAM holds nothing but what could be had from the disk cache again, and no call hangs. */
  ghost predicate RamMatchesDisk(c: Codecs, d: Cache) {
    d.held == {} && forall id :: id in d.ram ==> id in d.plain && TableFrom(c, Some(d.plain[id])) == Some(d.ram[id])
  }

  predicate SameDisk(d: Cache, e: Cache) {
    d.gzipped == e.gzipped && d.plain == e.plain
  }

  lemma ManifestKeepsMatch(c: Codecs, d: Cache, o: Origin, f: Faults, id: ObjectID)
    requires f.CachesWork() && RamMatchesDisk(c, d)
    ensures RamMatchesDisk(c, AfterManifest(c, d, o, f, id))
  {
  }

  lemma ServeKeepsMatch(c: Codecs, d: Cache, call: Call)
    requires call.faults.CachesWork() && RamMatchesDisk(c, d)
    ensures RamMatchesDisk(c, ServeCall(c, d, call).cache)
  {
    var d' := AfterManifest(c, d, call.origin, call.faults, call.req.manifestID);
    ManifestKeepsMatch(c, d, call.origin, call.faults, call.req.manifestID);
    var choice := ChoiceOf(c, d, call);
    if choice.Some? {
      DeliverKeepsMatch(c, d', call, choice.value);
    }
  }

  lemma DeliverKeepsMatch(c: Codecs, d: Cache, call: Call, choice: Choice)
    requires call.faults.CachesWork() && RamMatchesDisk(c, d)
    ensures RamMatchesDisk(c, Deliver(c, d, call, choice).cache)
  {
    DeliverKeepsRest(c, d, call, choice);
    var e := Deliver(c, d, call, choice).cache;
    forall id | id in e.ram
      ensures id in e.plain && TableFrom(c, Some(e.plain[id])) == Some(e.ram[id])
    {
      DeliverKeeps(c, d, call, choice, id);
    }
  }

  lemma {:induction false} RamAlwaysMatches(c: Codecs, ops: seq<Op>)
    requires CachesAlwaysWork(ops)
    ensures RamMatchesDisk(c, After(c, ops))
  {
    if ops != [] {
      var n := |ops| - 1;
      RamAlwaysMatches(c, ops[..n]);
      if ops[n].Serve? {
        ServeKeepsMatch(c, After(c, ops[..n]), ops[n].call);
      }
    }
  }

  lemma SameManifest(c: Codecs, d: Cache, e: Cache, o: Origin, f: Faults, id: ObjectID)
    requires f.CachesWork() && RamMatchesDisk(c, d) && RamMatchesDisk(c, e) && SameDisk(d, e)
    ensures TableOfManifest(c, d, o, f, id) == TableOfManifest(c, e, o, f, id)
    ensures SameDisk(AfterManifest(c, d, o, f, id), AfterManifest(c, e, o, f, id))
  {
  }

  lemma SameDelivery(c: Codecs, d: Cache, e: Cache, call: Call, choice: Choice)
    requires SameDisk(d, e) && d.held == e.held
    ensures var a, b := Deliver(c, d, call, choice), Deliver(c, e, call, choice); SameButRam(a, b)
  {
    var f, o, id := call.faults, call.origin, choice.file.contentID;
    SameRead(c, d, e, call.req, choice, f.gzip, f.plain);
    if FromOrigin(o.files, id, f.origin).Some? {
      SameDownload(c, d, e, call, choice, o.files[id]);
    }
  }

  predicate SameButRam(a: Outcome, b: Outcome) {
    a.reply == b.reply && a.fetched == b.fetched && a.returned == b.returned && SameDisk(a.cache, b.cache)
  }

  lemma SameDownload(c: Codecs, d: Cache, e: Cache, call: Call, choice: Choice, content: Bytes)
    requires SameDisk(d, e) && d.held == e.held
    ensures SameButRam(Downloaded(c, d, call, choice, content), Downloaded(c, e, call, choice, content))
  {
    var f := FillFor(c, d, choice.file, content, call.faults);
    if f.Ends? {
      SameRead(c, d.(gzipped := f.gzipped, plain := f.plain), e.(gzipped := f.gzipped, plain := f.plain), call.req, choice,
               call.faults.gzipAgain, call.faults.plainAgain);
    }
  }

  lemma SameRead(c: Codecs, d: Cache, e: Cache, req: Request, choice: Choice, gzipFault: bool, plainFault: bool)
    requires SameDisk(d, e)
    ensures FromCache(c, d, req, choice, gzipFault, plainFault) == FromCache(c, e, req, choice, gzipFault, plainFault)
  {
  }

  lemma SameOutcome(c: Codecs, d: Cache, e: Cache, call: Call)
    requires call.faults.CachesWork() && RamMatchesDisk(c, d) && RamMatchesDisk(c, e) && SameDisk(d, e)
    ensures var a, b := ServeCall(c, d, call), ServeCall(c, e, call); SameButRam(a, b)
  {
    var id := call.req.manifestID;
    SameManifest(c, d, e, call.origin, call.faults, id);
    var choice := ChoiceOf(c, d, call);
    if choice.Some? {
      SameDelivery(c, AfterManifest(c, d, call.origin, call.faults, id), AfterManifest(c, e, call.origin, call.faults, id),
                   call, choice.value);
    }
  }

  function WithoutRestarts(ops: seq<Op>): (r: seq<Op>)
    ensures CachesAlwaysWork(ops) ==> CachesAlwaysWork(r)
  {
    if ops == [] then []
    else
      var rest, last := WithoutRestarts(ops[..|ops| - 1]), ops[|ops| - 1];
      if last.Restart? then rest else rest + [last]
  }

  /** Neither RAM nor restarts can be observed while the disk caches work: whenever processes were
      restarted, the disk, and every further answer and download, are as if they had not been. */
  lemma {:induction false} RestartsDoNotShow(c: Codecs, ops: seq<Op>, call: Call)
    requires CachesAlwaysWork(ops) && call.faults.CachesWork()
    ensures SameDisk(After(c, ops), After(c, WithoutRestarts(ops)))
    ensures var a, b := ServeCall(c, After(c, ops), call), ServeCall(c, After(c, WithoutRestarts(ops)), call);
            a.reply == b.reply && a.fetched == b.fetched && a.returned == b.returned
  {
    var plain := WithoutRestarts(ops);
    if ops != [] {
      var n := |ops| - 1;
      RestartsDoNotShow(c, ops[..n], call);
      if ops[n].Serve? {
        var rest := WithoutRestarts(ops[..n]);
        RamAlwaysMatches(c, ops[..n]);
        RamAlwaysMatches(c, rest);
        SameOutcome(c, After(c, ops[..n]), After(c, rest), ops[n].call);
        assert plain[..|plain| - 1] == rest;
      }
    }
    RamAlwaysMatches(c, ops);
    RamAlwaysMatches(c, plain);
    SameOutcome(c, After(c, ops), After(c, plain), call);
  }

  // --- a site keeps what it has shown ---

  /** Everything needed for the answer to `req` is cached; `choice` is the file it is about. */
  ghost predicate Cached(c: Codecs, d: Cache, req: Request, choice: Choice) {
    && req.manifestID in d.plain
    && var table := TableFrom(c, Some(d.plain[req.manifestID]));
       table.Some? && Choose(table.value, req.path) == Some(choice) && d.Has(choice.file.contentID)
  }

  lemma FullMeansCached(c: Codecs, d: Cache, call: Call) returns (choice: Choice)
    requires call.faults.CachesWork() && RamMatchesDisk(c, d) && ServeCall(c, d, call).reply.Full?
    ensures var out := ServeCall(c, d, call);
            && Cached(c, out.cache, call.req, choice)
            && FromCache(c, out.cache, call.req, choice, false, false) == Some(out.reply)
  {
    choice := ChoiceOf(c, d, call).value;
    var d' := AfterManifest(c, d, call.origin, call.faults, call.req.manifestID);
    ManifestKeepsMatch(c, d, call.origin, call.faults, call.req.manifestID);
    DeliverKeeps(c, d', call, choice, call.req.manifestID);
  }

  lemma CachedIsEnough(c: Codecs, d: Cache, call: Call, choice: Choice)
    requires call.faults.CachesWork() && RamMatchesDisk(c, d) && Cached(c, d, call.req, choice)
    ensures var out := ServeCall(c, d, call);
            && out.fetched == None
            && (out.reply == NotModified || Some(out.reply) == FromCache(c, d, call.req, choice, false, false))
  {
  }

  /** Once a page was sent in full, every later request for it is answered from the caches with that
      page, whether or not processes were restarted and the origin can be reached. */
  lemma ServedOnceServedForEver(c: Codecs, ops: seq<Op>, i: nat, j: nat)
    requires CachesAlwaysWork(ops) && i < j < |ops| && ops[i].Serve? && ops[j].Serve?
    requires ops[j].call.req.manifestID == ops[i].call.req.manifestID && ops[j].call.req.path == ops[i].call.req.path
    requires OutcomeAt(c, ops, i).reply.Full? && Decoded(c, OutcomeAt(c, ops, i).reply).Some?
    ensures OutcomeAt(c, ops, j).fetched == None
    ensures var first, later := OutcomeAt(c, ops, i).reply, OutcomeAt(c, ops, j).reply;
            later != NotModified ==> later.Full? && later.status == first.status && Decoded(c, later) == Decoded(c, first)
  {
    var d, d', req := After(c, ops[..i + 1]), After(c, ops[..j]), ops[j].call.req;
    assert ops[..i + 1][..i] == ops[..i];
    RamAlwaysMatches(c, ops[..i]);
    RamAlwaysMatches(c, ops[..j]);
    var choice := FullMeansCached(c, After(c, ops[..i]), ops[i].call);
    CachedStays(c, ops, i + 1, j, req.manifestID);
    CachedStays(c, ops, i + 1, j, choice.file.contentID);
    CachedIsEnough(c, d', ops[j].call, choice);
    SameContentFromCache(c, d, d', ops[i].call.req, req, choice);
  }

  lemma SameContentFromCache(c: Codecs, d: Cache, d': Cache, req: Request, req': Request, choice: Choice)
    requires d.Has(choice.file.contentID) && Keeps(d, d', choice.file.contentID)
    requires FromCache(c, d, req, choice, false, false).value.Full?
    requires Decoded(c, FromCache(c, d, req, choice, false, false).value).Some?
    ensures var a, b := FromCache(c, d, req, choice, false, false), FromCache(c, d', req', choice, false, false);
            b.Some? && b.value.Full? && b.value.status == a.value.status && Decoded(c, b.value) == Decoded(c, a.value)
  {
  }

  // --- what the caches hold is genuine, and a reachable origin is enough; whatever failed before ---

  ghost predicate CacheOk(c: Codecs, seen: set<Bytes>, d: Cache) {
    && CachesOk(c, seen, d.gzipped, d.plain)
    && forall id :: id in d.ram ==> TableOf(c, seen, id, d.ram[id])
  }

  ghost predicate OriginOk(c: Codecs, o: Origin) {
    Deployment.OInv(c, o)
  }

  ghost predicate OriginsGrow(c: Codecs, ops: seq<Op>) {
    && (forall i :: 0 <= i < |ops| && ops[i].Serve? ==> OriginOk(c, ops[i].call.origin))
    && (forall i, j :: 0 <= i < j < |ops| && ops[i].Serve? && ops[j].Serve? ==>
          ops[i].call.origin.seen <= ops[j].call.origin.seen)
  }

  lemma ManifestOk(c: Codecs, d: Cache, o: Origin, f: Faults, id: ObjectID)
    requires CacheOk(c, o.seen, d) && OriginOk(c, o)
    ensures CacheOk(c, o.seen, AfterManifest(c, d, o, f, id))
    ensures var table := TableOfManifest(c, d, o, f, id); table.Some? ==> TableOf(c, o.seen, id, table.value)
  {
    if id !in d.ram {
      if id in o.manifests {
        World.ManifestIsGenuine(c, o, id);
      }
      var bytes := ManifestBytes(d, o, f, id);
      assert bytes.Some? ==> Genuine(c, o.seen, id, bytes.value);
      ManifestInsertOk(c, d, o, f, id);
    }
  }

  lemma ManifestInsertOk(c: Codecs, d: Cache, o: Origin, f: Faults, id: ObjectID)
    requires CacheOk(c, o.seen, d) && (id in o.manifests ==> Genuine(c, o.seen, id, o.manifests[id]))
    ensures CachesOk(c, o.seen, d.gzipped, PlainAfterManifest(d, o, f, id))
  {
  }

  lemma DownloadOk(c: Codecs, d: Cache, o: Origin, file: Entry, f: Faults)
    requires c.Lawful() && CacheOk(c, o.seen, d) && OriginOk(c, o) && file.contentID in o.files
    ensures var x := FillFor(c, d, file, o.files[file.contentID], f);
            x.Ends? ==> CacheOk(c, o.seen, d.(gzipped := x.gzipped, plain := x.plain))
  {
    var id, b := file.contentID, o.files[file.contentID];
    assert Deployment.FileOk(c, o, id);
    World.FilledOk(c, o.seen, d.gzipped, d.plain, file, b, f.insert, f.supply);
  }

  lemma CacheAnswerOk(c: Codecs, d: Cache, seen: set<Bytes>, req: Request, choice: Choice, gzipFault: bool, plainFault: bool)
    requires CacheOk(c, seen, d)
    ensures var reply := FromCache(c, d, req, choice, gzipFault, plainFault);
            reply.Some? ==> reply.value.Full? && FullOk(c, seen, req, choice, reply.value)
  {
    var id := choice.file.contentID;
    if id in d.gzipped {
      assert GenuineGzip(c, seen, id, d.gzipped[id]);
    }
    if id in d.plain {
      assert Genuine(c, seen, id, d.plain[id]);
    }
  }

  lemma DeliverOk(c: Codecs, d: Cache, call: Call, choice: Choice)
    requires c.Lawful() && CacheOk(c, call.origin.seen, d) && OriginOk(c, call.origin)
    ensures var out := Deliver(c, d, call, choice);
            && CacheOk(c, call.origin.seen, out.cache)
            && (out.reply.Full? || out.reply.NoReply?)
            && (out.reply.Full? ==> FullOk(c, call.origin.seen, call.req, choice, out.reply))
  {
    var id, o, f := choice.file.contentID, call.origin, call.faults;
    CacheAnswerOk(c, d, o.seen, call.req, choice, f.gzip, f.plain);
    if id in o.files {
      DownloadOk(c, d, o, choice.file, f);
      var x := FillFor(c, d, choice.file, o.files[id], f);
      if x.Ends? {
        CacheAnswerOk(c, d.(gzipped := x.gzipped, plain := x.plain), o.seen, call.req, choice, f.gzipAgain, f.plainAgain);
      }
    }
  }

  lemma ServeOk(c: Codecs, d: Cache, call: Call)
    requires c.Lawful() && CacheOk(c, call.origin.seen, d) && OriginOk(c, call.origin)
    ensures CacheOk(c, call.origin.seen, ServeCall(c, d, call).cache)
    ensures var table := TableOfManifest(c, d, call.origin, call.faults, call.req.manifestID);
            World.RecordOk(c, call.origin.seen, World.Record(call.req, table, ServeCall(c, d, call).reply))
  {
    var id := call.req.manifestID;
    ManifestOk(c, d, call.origin, call.faults, id);
    var choice := ChoiceOf(c, d, call);
    if choice.Some? {
      DeliverOk(c, AfterManifest(c, d, call.origin, call.faults, id), call, choice.value);
    }
  }

  lemma CacheOkGrows(c: Codecs, seen: set<Bytes>, seen': set<Bytes>, d: Cache)
    requires CacheOk(c, seen, d) && seen <= seen'
    ensures CacheOk(c, seen', d)
  {
    forall id | id in d.gzipped
      ensures GenuineGzip(c, seen', id, d.gzipped[id])
    {
      assert GenuineGzip(c, seen, id, d.gzipped[id]);
    }
    forall id | id in d.plain
      ensures Genuine(c, seen', id, d.plain[id])
    {
      assert Genuine(c, seen, id, d.plain[id]);
    }
    forall id | id in d.ram
      ensures TableOf(c, seen', id, d.ram[id])
    {
      World.TableOfGrows(c, seen, seen', id, d.ram[id]);
    }
  }

  /** In every state that calls with growing origins lead to, for whichever call comes next. */
  lemma {:induction false} RunKeepsOk(c: Codecs, ops: seq<Op>, n: nat, seen: set<Bytes>)
    requires c.Lawful() && OriginsGrow(c, ops) && n <= |ops|
    requires forall i :: 0 <= i < n && ops[i].Serve? ==> ops[i].call.origin.seen <= seen
    ensures CacheOk(c, seen, After(c, ops[..n]))
  {
    if n > 0 {
      assert ops[..n][..n - 1] == ops[..n - 1];
      if ops[n - 1].Serve? {
        var call := ops[n - 1].call;
        RunKeepsOk(c, ops, n - 1, call.origin.seen);
        ServeOk(c, After(c, ops[..n - 1]), call);
        CacheOkGrows(c, call.origin.seen, seen, After(c, ops[..n]));
      } else {
        RunKeepsOk(c, ops, n - 1, seen);
      }
    }
  }

  /** No call ever lies, whatever fails: its answer meets the same specification as under concurrency. */
  lemma AnswersAreGenuine(c: Codecs, ops: seq<Op>, n: nat)
    requires c.Lawful() && OriginsGrow(c, ops) && n < |ops| && ops[n].Serve?
    ensures var d, call := After(c, ops[..n]), ops[n].call;
            var table := TableOfManifest(c, d, call.origin, call.faults, call.req.manifestID);
            World.RecordOk(c, call.origin.seen, World.Record(call.req, table, OutcomeAt(c, ops, n).reply))
  {
    RunKeepsOk(c, ops, n, ops[n].call.origin.seen);
    ServeOk(c, After(c, ops[..n]), ops[n].call);
  }

  /** The table in hand is that of the published manifest, so all its files can be had. */
  lemma PublishedTable(c: Codecs, d: Cache, call: Call)
    requires c.Lawful() && CacheOk(c, call.origin.seen, d) && OriginOk(c, call.origin)
    requires c.NoCollision(call.origin.seen) && !call.faults.origin && call.req.manifestID in call.origin.manifests
    ensures var table := TableOfManifest(c, d, call.origin, call.faults, call.req.manifestID);
            table.Some? && forall p :: p in table.value ==> table.value[p].contentID in call.origin.files
  {
    var id, o := call.req.manifestID, call.origin;
    World.ManifestIsGenuine(c, o, id);
    Deployment.PublishedIsComplete(c, o, id);
    ManifestOk(c, d, o, call.faults, id);
    var published := Optimized(c.decode(o.manifests[id]).value.files);
    assert TableOf(c, o.seen, id, published);
    assert id !in d.ram ==> ManifestBytes(d, o, call.faults, id) == Some(o.manifests[id]);
    var table := TableOfManifest(c, d, o, call.faults, id);
    World.TableIsUnique(c, o.seen, id, table.value, published);
    OptimizedHasAll(c.decode(o.manifests[id]).value.files);
  }

  // --- calls that never return ---

  /** Exactly when a call does not return: it is for a file that the client has not and that could not be
      read from a cache, and either an earlier call keeps the lock of that content, or the download of a
      compressible file is not read to its end. */
  lemma ReturnsIff(c: Codecs, d: Cache, call: Call)
    ensures var choice, f := ChoiceOf(c, d, call), call.faults;
            var d' := AfterManifest(c, d, call.origin, f, call.req.manifestID);
            !ServeCall(c, d, call).returned <==>
              && choice.Some? && !ClientHasIt(call.req, choice.value.file)
              && FromCache(c, d', call.req, choice.value, f.gzip, f.plain).None?
              && var file := choice.value.file;
                 (file.contentID in d.held || (FromOrigin(call.origin.files, file.contentID, f.origin).Some?
                    && CompressesWell(file.path) && NotReadToEnd(file.contentID in d'.gzipped, f.insert, f.supply)))
  {
    var d' := AfterManifest(c, d, call.origin, call.faults, call.req.manifestID);
    var choice := ChoiceOf(c, d, call);
    if choice.Some? && choice.value.file.contentID in call.origin.files {
      var file := choice.value.file;
      HangsIff(c, d'.gzipped, d'.plain, file, call.origin.files[file.contentID], call.faults.insert, call.faults.supply);
    }
  }

  /** Without faults of the caches, only a lock that is kept can make a call hang. */
  lemma WorkingReturns(c: Codecs, d: Cache, call: Call)
    requires call.faults.CachesWork()
    ensures !ServeCall(c, d, call).returned ==> ChoiceOf(c, d, call).Some? && ChoiceOf(c, d, call).value.file.contentID in d.held
    ensures ServeCall(c, d, call).cache.held == d.held
  {
    ReturnsIff(c, d, call);
    HeldGrows(c, d, call);
  }

  lemma HeldGrows(c: Codecs, d: Cache, call: Call)
    ensures var out, choice := ServeCall(c, d, call), ChoiceOf(c, d, call);
            && (!out.returned ==> choice.Some?)
            && out.cache.held == if out.returned then d.held else d.held + {choice.value.file.contentID}
  {
    var d' := AfterManifest(c, d, call.origin, call.faults, call.req.manifestID);
    assert d'.held == d.held;
    var choice := ChoiceOf(c, d, call);
    if choice.Some? && choice.value.file.contentID in d.held {
      assert d.held + {choice.value.file.contentID} == d.held;
    }
  }

  /** If nothing ever fails but that the origin cannot be reached, every call returns. */
  lemma WorkingNeverHangs(c: Codecs, ops: seq<Op>, i: nat)
    requires CachesAlwaysWork(ops) && i < |ops| && ops[i].Serve?
    ensures OutcomeAt(c, ops, i).returned
  {
    assert CachesAlwaysWork(ops[..i]);
    RamAlwaysMatches(c, ops[..i]);
    WorkingReturns(c, After(c, ops[..i]), ops[i].call);
  }

  /** Call `k` hung on the content `id`, and the process was not restarted since. */
  ghost predicate HungAt(c: Codecs, ops: seq<Op>, k: nat, id: ObjectID)
    requires k < |ops|
  {
    && (forall j :: k <= j < |ops| ==> ops[j].Serve?)
    && !OutcomeAt(c, ops, k).returned
    && var choice := ChoiceOf(c, After(c, ops[..k]), ops[k].call);
       choice.Some? && choice.value.file.contentID == id
  }

  ghost predicate HungSinceRestart(c: Codecs, ops: seq<Op>, id: ObjectID) {
    exists k :: 0 <= k < |ops| && HungAt(c, ops, k, id)
  }

  /** A lock is kept exactly if some call hung on its content in this process. */
  lemma {:induction false} HeldIff(c: Codecs, ops: seq<Op>, id: ObjectID)
    ensures id in After(c, ops).held <==> HungSinceRestart(c, ops, id)
  {
    if ops != [] {
      var n := |ops| - 1;
      if ops[n].Serve? {
        HeldIff(c, ops[..n], id);
        HeldGrows(c, After(c, ops[..n]), ops[n].call);
        forall k | 0 <= k < n
          ensures HungAt(c, ops, k, id) <==> HungAt(c, ops[..n], k, id)
        {
          HungEarlier(c, ops, k, id);
        }
        HungLast(c, ops, id);
      }
    }
  }

  lemma HungEarlier(c: Codecs, ops: seq<Op>, k: nat, id: ObjectID)
    requires k < |ops| - 1 && ops[|ops| - 1].Serve?
    ensures HungAt(c, ops, k, id) <==> HungAt(c, ops[..|ops| - 1], k, id)
  {
    var rest := ops[..|ops| - 1];
    assert rest[..k] == ops[..k];
    assert forall j :: 0 <= j < |ops| - 1 ==> rest[j] == ops[j];
  }

  lemma HungLast(c: Codecs, ops: seq<Op>, id: ObjectID)
    requires ops != [] && ops[|ops| - 1].Serve?
    ensures var n := |ops| - 1;
            HungSinceRestart(c, ops, id) <==> HungAt(c, ops, n, id) || exists k :: 0 <= k < n && HungAt(c, ops, k, id)
  {
    var n := |ops| - 1;
    if HungSinceRestart(c, ops, id) {
      var k :| 0 <= k < |ops| && HungAt(c, ops, k, id);
      assert k < n || k == n;
    }
  }

  lemma DeliverAnswers(c: Codecs, d: Cache, call: Call, choice: Choice)
    requires c.Lawful() && CacheOk(c, call.origin.seen, d) && OriginOk(c, call.origin)
    requires call.faults.CachesWork() && !call.faults.origin && choice.file.contentID in call.origin.files
    ensures var out := Deliver(c, d, call, choice);
            if d.Has(choice.file.contentID) || choice.file.contentID !in d.held then out.reply.Full? else !out.returned
  {
    DeliverOk(c, d, call, choice);
    var file := choice.file;
    HangsIff(c, d.gzipped, d.plain, file, call.origin.files[file.contentID], call.faults.insert, call.faults.supply);
  }

  /** Call `n` needs a file that no cache has, and an earlier call of this process hung on its content. */
  ghost predicate StuckBehind(c: Codecs, ops: seq<Op>, n: nat)
    requires n < |ops| && ops[n].Serve?
  {
    var d, call := After(c, ops[..n]), ops[n].call;
    var choice := ChoiceOf(c, d, call);
    && choice.Some? && !ClientHasIt(call.req, choice.value.file)
    && !AfterManifest(c, d, call.origin, call.faults, call.req.manifestID).Has(choice.value.file.contentID)
    && HungSinceRestart(c, ops[..n], choice.value.file.contentID)
  }

  predicate IsAnswer(reply: Reply) {
    reply.Full? || reply.NotModified? || reply.NotFound?
  }

  /** Whatever was fetched, cached or failed before, a request for a published manifest is answered while
      the caches work and the origin can be reached (with the chosen file, with 304, or with 404 if the
      site has no such page), if and only if no call of this process hung on the file it needs; else it
      hangs as well. */
  lemma PublishedIsAnswered(c: Codecs, ops: seq<Op>, n: nat)
    requires c.Lawful() && OriginsGrow(c, ops) && n < |ops| && ops[n].Serve?
    requires c.NoCollision(ops[n].call.origin.seen)
    requires ops[n].call.faults.CachesWork() && !ops[n].call.faults.origin
    requires ops[n].call.req.manifestID in ops[n].call.origin.manifests
    ensures IsAnswer(OutcomeAt(c, ops, n).reply) <==> !StuckBehind(c, ops, n)
    ensures OutcomeAt(c, ops, n).returned <==> !StuckBehind(c, ops, n)
  {
    var d, call := After(c, ops[..n]), ops[n].call;
    RunKeepsOk(c, ops, n, call.origin.seen);
    PublishedTable(c, d, call);
    var id := call.req.manifestID;
    ManifestOk(c, d, call.origin, call.faults, id);
    var choice := ChoiceOf(c, d, call);
    if choice.Some? {
      HeldIff(c, ops[..n], choice.value.file.contentID);
      DeliverAnswers(c, AfterManifest(c, d, call.origin, call.faults, id), call, choice.value);
      WorkingReturns(c, d, call);
    }
  }

  // --- calls that return without an answer ---

  /** Exactly when a call returns without having written anything, as long as the caches work: the file
      it is for is not cached, and the origin does not give it. */
  lemma NoReplyIff(c: Codecs, d: Cache, call: Call)
    requires c.Lawful() && CacheOk(c, call.origin.seen, d) && OriginOk(c, call.origin) && call.faults.CachesWork()
    ensures var out, choice := ServeCall(c, d, call), ChoiceOf(c, d, call);
            var d' := AfterManifest(c, d, call.origin, call.faults, call.req.manifestID);
            out.returned && out.reply.NoReply? <==>
              && choice.Some? && !ClientHasIt(call.req, choice.value.file)
              && var id := choice.value.file.contentID;
                 !d'.Has(id) && id !in d.held && (call.faults.origin || id !in call.origin.files)
  {
    var id := call.req.manifestID;
    ManifestOk(c, d, call.origin, call.faults, id);
    var choice := ChoiceOf(c, d, call);
    if choice.Some? {
      var d' := AfterManifest(c, d, call.origin, call.faults, id);
      CacheAnswerOk(c, d', call.origin.seen, call.req, choice.value, false, false);
      if !call.faults.origin && choice.value.file.contentID in call.origin.files {
        DeliverAnswers(c, d', call, choice.value);
      }
    }
  }

  // --- inputs ---

  const NO_FAULTS := Faults(false, NoFault, false, false, false, NoFault, Supply(0, false), false, false)

  /** The check for an object in the gzipped cache fails once. */
  const CHECK_FAILS := NO_FAULTS.(insert := CheckFails)

  const UNREACHABLE := NO_FAULTS.(origin := true)

  /** The first request of a process for a file, with those faults. */
  lemma FirstCall(c: Codecs, req: Request, o: Origin, f: Faults, v: Table) returns (d: Cache)
    requires !f.manifest && !f.origin && f.manifestInsert.NoFault?
    requires req.manifestID in o.manifests && TableFrom(c, Some(o.manifests[req.manifestID])) == Some(v)
    ensures d == Cache(map[], map[req.manifestID := o.manifests[req.manifestID]], map[req.manifestID := v], {})
    ensures d == AfterManifest(c, After(c, []), o, f, req.manifestID)
    ensures ChoiceOf(c, After(c, []), Call(req, o, f)) == Choose(v, req.path)
  {
    d := AfterManifest(c, After(c, []), o, f, req.manifestID);
    assert d.plain == map[req.manifestID := o.manifests[req.manifestID]];
    assert d.ram == map[req.manifestID := v];
  }

  /** One failing check for an object in the cache: that request never returns, nor does any later one for
      the file, though nothing fails any more; after a restart, it is answered. */
  lemma OneFailureBlocks(c: Codecs, req: Request, o: Origin, v: Table, choice: Choice)
    requires c.Lawful() && req.manifestID in o.manifests && TableFrom(c, Some(o.manifests[req.manifestID])) == Some(v)
    requires Choose(v, req.path) == Some(choice) && !ClientHasIt(req, choice.file) && CompressesWell(choice.file.path)
    requires choice.file.contentID in o.files && choice.file.contentID != req.manifestID
    ensures var bad, good := Serve(Call(req, o, CHECK_FAILS)), Serve(Call(req, o, NO_FAULTS));
            && !OutcomeAt(c, [bad, good], 0).returned && !OutcomeAt(c, [bad, good], 1).returned
            && OutcomeAt(c, [bad, Restart, good], 2).reply.Full?
  {
    var bad, good := Serve(Call(req, o, CHECK_FAILS)), Serve(Call(req, o, NO_FAULTS));
    var d := FirstCall(c, req, o, CHECK_FAILS, v);
    assert [bad, good][..0] == [] && [bad, good][..1] == [bad] && [bad][..0] == [];
    ReturnsIff(c, After(c, []), bad.call);
    HeldGrows(c, After(c, []), bad.call);
    assert ServeCall(c, After(c, []), bad.call).cache == d.(held := {choice.file.contentID});
    ReturnsIff(c, After(c, [bad]), good.call);
    assert [bad, Restart, good][..2] == [bad, Restart] && [bad, Restart][..1] == [bad];
  }

  /** The manifest is cached, the origin cannot be reached, and the client gets status 200 with an empty
      body for a file that is not empty. */
  lemma EmptyPage(c: Codecs, id: ObjectID, mid: ObjectID, content: Bytes)
    requires c.Lawful() && id != mid
    ensures var m := Manifest("", [Entry("/logo.png", id)]);
            var o := Origin(map[id := content], map[mid := c.encode(m)], {content, c.encode(m)}, {});
            var first, second := Call(Request(mid, "/", "", ""), o, NO_FAULTS), Call(Request(mid, "/logo.png", "", ""), o, UNREACHABLE);
            && OutcomeAt(c, [Serve(first), Serve(second)], 0).reply.NotFound?
            && OutcomeAt(c, [Serve(first), Serve(second)], 1).returned
            && Sent(OutcomeAt(c, [Serve(first), Serve(second)], 1).reply) == (200, Some([]))
  {
    var e := Entry("/logo.png", id);
    var m := Manifest("", [e]);
    var o := Origin(map[id := content], map[mid := c.encode(m)], {content, c.encode(m)}, {});
    var first, second := Call(Request(mid, "/", "", ""), o, NO_FAULTS), Call(Request(mid, "/logo.png", "", ""), o, UNREACHABLE);
    var v := map["/logo.png" := e];
    assert c.decode(c.encode(m)) == Some(m);
    assert Optimized(m.files) == v by {
      assert [e][..0] == [] && Optimized([]) == map[];
      assert map[][e.path := e] == v;
    }
    var d := FirstCall(c, first.req, o, NO_FAULTS, v);
    var ops := [Serve(first), Serve(second)];
    assert ops[..0] == [] && ops[..1] == [Serve(first)] && [Serve(first)][..0] == [];
    assert After(c, [Serve(first)]) == d;
    assert ETagUncompressed(id)[0] == '\"' && ETagGZipped(id)[0] == '\"';
  }
}
