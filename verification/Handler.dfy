/** The manifest handler as an object over its stores, between whose methods nothing else runs here. Where
    the source waits for ever, a method says so with `returned == false`. */
module Handler {
  import opened Wrappers
  import opened ObjectIDs
  import opened MutexMaps
  import opened Content
  import opened Serving
  import opened Pipe
  import opened Filling
  import opened Stores
  import opened Sequential

  ghost function Names(ids: set<ObjectID>): set<string> {
    set id | id in ids :: Text(id)
  }

  lemma OneMoreName(ids: set<ObjectID>, id: ObjectID)
    ensures Names(ids + {id}) == Names(ids) + {Text(id)}
  {
  }

  lemma NamedIff(ids: set<ObjectID>, id: ObjectID)
    ensures Text(id) in Names(ids) <==> id in ids
  {
    if Text(id) in Names(ids) {
      var k :| k in ids && Text(k) == Text(id);
      TextInjective(k, id);
    }
  }

  /** Taking a free lock and giving it back leaves the locks as they were. */
  lemma LockAndFree(locks: map<string, Chan>, key: string, ch: Chan)
    requires key !in locks
    ensures LocksAfterTry(locks, key, ch) - {key} == locks
  {
  }

  class ManifestHandler {
    const c: Codecs
    const originFileDownloadLocks: MutexMap
    const originManifestDownloadLocks: MutexMap
    const cacheGzipped: FileStore
    const cacheUncompressed: FileStore
    var cachedManifests: map<ObjectID, Table>

    /** The contents whose file lock is kept by a call that hangs. */
    ghost var held: set<ObjectID>

    ghost function Repr(): set<object> {
      {this, cacheGzipped, cacheUncompressed, originFileDownloadLocks, originManifestDownloadLocks}
    }

    ghost function Holds(): Cache
      reads this, cacheGzipped, cacheUncompressed
    {
      Cache(cacheGzipped.objects, cacheUncompressed.objects, cachedManifests, held)
    }

    ghost predicate Separate() {
      cacheGzipped != cacheUncompressed && originFileDownloadLocks != originManifestDownloadLocks
    }

    /** No lock is held but by calls that hang. */
    ghost predicate Valid()
      reads this`held, originFileDownloadLocks, originManifestDownloadLocks
    {
      && Separate()
      && originFileDownloadLocks.Valid() && originFileDownloadLocks.locks.Keys == Names(held)
      && originManifestDownloadLocks.Valid() && originManifestDownloadLocks.locks == map[]
    }

    /** A process starts with empty RAM over caches that may be full already. */
    constructor (c: Codecs, cacheGzipped: FileStore, cacheUncompressed: FileStore)
      requires cacheGzipped != cacheUncompressed
      ensures Valid() && this.c == c && this.cacheGzipped == cacheGzipped && this.cacheUncompressed == cacheUncompressed
      ensures Holds() == Cache(cacheGzipped.objects, cacheUncompressed.objects, map[], {})
      ensures fresh(originFileDownloadLocks) && fresh(originManifestDownloadLocks)
    {
      this.c, this.cacheGzipped, this.cacheUncompressed := c, cacheGzipped, cacheUncompressed;
      originFileDownloadLocks := new MutexMap();
      originManifestDownloadLocks := new MutexMap();
      cachedManifests := map[];
      held := {};
    }

    method OptimizeManifest(manifest: Manifest) returns (table: Table)
      ensures table == Optimized(manifest.files)
    {
      table := map[];
      for i := 0 to |manifest.files|
        invariant table == Optimized(manifest.files[..i])
      {
        assert manifest.files[..i + 1][..i] == manifest.files[..i];
        table := table[manifest.files[i].path := manifest.files[i]];
      }
      assert manifest.files[..|manifest.files|] == manifest.files;
    }

    /** From the disk cache, else from the origin and into the disk cache if that works. */
    method LoadManifest(id: ObjectID, origin: Origin, faults: Faults) returns (manifest: Option<Manifest>)
      requires Separate()
      modifies cacheUncompressed
      ensures cacheUncompressed.objects == PlainAfterManifest(old(Holds()), origin, faults, id)
      ensures var bytes := ManifestBytes(old(Holds()), origin, faults, id);
              manifest == if bytes.None? then None else c.decode(bytes.value)
    {
      var cached := cacheUncompressed.GetObject(id, faults.manifest);
      if cached.Ok? {
        return c.decode(cached.value);
      }
      if faults.origin || id !in origin.manifests {
        return None;
      }
      var bytes := origin.manifests[id];
      var _ := cacheUncompressed.InsertObject(id, bytes, faults.manifestInsert);
      manifest := c.decode(bytes);
    }

    method ResolveManifest(id: ObjectID, origin: Origin, faults: Faults) returns (table: Option<Table>)
      requires Valid()
      modifies this`cachedManifests, cacheUncompressed, originManifestDownloadLocks
      ensures Valid()
      ensures table == TableOfManifest(c, old(Holds()), origin, faults, id)
      ensures Holds() == AfterManifest(c, old(Holds()), origin, faults, id)
    {
      if id in cachedManifests {
        return Some(cachedManifests[id]);
      }
      var unlock, gotLock := originManifestDownloadLocks.TryLock(Text(id));
      var manifest := LoadManifest(id, origin, faults);
      table := None;
      if manifest.Some? {
        var optimized := OptimizeManifest(manifest.value);
        table := Some(optimized);
        cachedManifests := cachedManifests[id := optimized];
      }
      originManifestDownloadLocks.Unlock(Text(id), unlock.value);
    }

    method ServeFromCache(req: Request, choice: Choice, gzipFault: bool, plainFault: bool) returns (reply: Option<Reply>)
      ensures reply == FromCache(c, Holds(), req, choice, gzipFault, plainFault)
      ensures var id := choice.file.contentID;
              !gzipFault && id in cacheGzipped.objects ==>
                && reply.Some? && (reply.value.Full? && reply.value.gzipped <==> AcceptsGzip(req))
                && (AcceptsGzip(req) ==> reply.value == Full(choice.status, ETagGZipped(id), true, cacheGzipped.objects[id]))
    {
      var gzipped := cacheGzipped.GetObject(choice.file.contentID, gzipFault);
      if gzipped.Ok? {
        FromGzipIff(c, req, choice, gzipped.value);
        return Some(ReplyFromGzip(c, req, choice, gzipped.value));
      }
      var uncompressed := cacheUncompressed.GetObject(choice.file.contentID, plainFault);
      if uncompressed.Ok? {
        return Some(ReplyFromPlain(choice, uncompressed.value));
      }
      reply := None;
    }

    /** From the origin, compressed into the one cache or as it is into the other. */
    method Download(file: Entry, origin: Origin, faults: Faults) returns (ok: bool, hangs: bool, ghost fetched: bool)
      requires Separate()
      modifies cacheGzipped, cacheUncompressed
      ensures hangs || !fetched ==> !ok && Holds() == old(Holds())
      ensures var content := FromOrigin(origin.files, file.contentID, faults.origin);
              if content.None? then !hangs && !fetched
              else
                && fetched == !hangs
                && (if hangs then Hangs else Ends(cacheGzipped.objects, cacheUncompressed.objects, ok))
                   == FillFor(c, old(Holds()), file, content.value, faults)
    {
      ok, hangs, fetched := false, false, false;
      if faults.origin || file.contentID !in origin.files {
        return;
      }
      var content := origin.files[file.contentID];
      if CompressesWell(file.path) {
        if Stalls(ReadsUpTo(file.contentID in cacheGzipped.objects, faults.insert), faults.supply) {
          return false, true, false;
        }
        ok := cacheGzipped.InsertObject(file.contentID, c.gzip(content), faults.insert);
        ok := ok && !faults.supply.breaks;
      } else {
        ok := cacheUncompressed.InsertObject(file.contentID, content,
                                             if faults.supply.breaks && faults.insert.NoFault? then WriteFails else faults.insert);
      }
      fetched := true;
    }

    /** Downloads the file into the cache that suits its path, under the lock of its content. It does not
        return, and leaves all as it is, behind a call that hangs; and it does not return, and keeps the
        lock, if the pipe to the gzipped cache stalls. */
    method HydrateCache(file: Entry, origin: Origin, faults: Faults) returns (ok: bool, returned: bool, ghost fetched: bool)
      requires Valid()
      modifies this`held, cacheGzipped, cacheUncompressed, originFileDownloadLocks
      ensures Valid()
      ensures !returned ==> !ok && !fetched
      ensures var content := FromOrigin(origin.files, file.contentID, faults.origin);
              if file.contentID in old(held) then !returned && Holds() == old(Holds())
              else if content.None? then returned && !ok && !fetched && Holds() == old(Holds())
              else
                match FillFor(c, old(Holds()), file, content.value, faults)
                case Hangs => !returned && Holds() == old(Holds()).(held := old(held) + {file.contentID})
                case Ends(gzipped, plain, done) =>
                  returned && ok == done && fetched && Holds() == old(Holds()).(gzipped := gzipped, plain := plain)
    {
      NamedIff(held, file.contentID);
      var unlock, wasFirst := originFileDownloadLocks.TryLock(Text(file.contentID));
      if !wasFirst {
        return false, false, false;
      }
      var hangs;
      ok, hangs, fetched := Download(file, origin, faults);
      returned := !hangs;
      if hangs {
        OneMoreName(held, file.contentID);
        held := held + {file.contentID};
      } else {
        LockAndFree(old(originFileDownloadLocks.locks), Text(file.contentID), unlock.value);
        originFileDownloadLocks.Unlock(Text(file.contentID), unlock.value);
      }
    }

    /** From the caches, which are filled from the origin first if they must. */
    method ServeFile(req: Request, choice: Choice, origin: Origin, faults: Faults)
      returns (reply: Reply, returned: bool, ghost fetched: Option<ObjectID>)
      requires Valid()
      modifies this`held, cacheGzipped, cacheUncompressed, originFileDownloadLocks
      ensures Valid()
      ensures Outcome(reply, Holds(), fetched, returned) == Deliver(c, old(Holds()), Call(req, origin, faults), choice)
    {
      var served := ServeFromCache(req, choice, faults.gzip, faults.plain);
      if served.Some? {
        return served.value, true, None;
      }
      var hydrated;
      ghost var got;
      hydrated, returned, got := HydrateCache(choice.file, origin, faults);
      fetched := if got then Some(choice.file.contentID) else None;
      if !hydrated {
        return NoReply, returned, fetched;
      }
      served := ServeFromCache(req, choice, faults.gzipAgain, faults.plainAgain);
      reply := if served.Some? then served.value else NoReply;
    }

    /** The answer if there is one, what is held afterwards and what was downloaded are those of the
        specification, and so is whether the call returns. */
    method ServeHTTPFromManifest(req: Request, origin: Origin, faults: Faults)
      returns (reply: Reply, returned: bool, ghost fetched: Option<ObjectID>)
      requires Valid()
      modifies Repr()
      ensures Valid()
      ensures Outcome(reply, Holds(), fetched, returned) == ServeCall(c, old(Holds()), Call(req, origin, faults))
    {
      var table := ResolveManifest(req.manifestID, origin, faults);
      if table.None? {
        return ServerError, true, None;
      }
      var choice := Choose(table.value, req.path);
      if choice.None? {
        return NotFound, true, None;
      }
      var file := choice.value.file;
      if req.ifNoneMatch == ETagUncompressed(file.contentID) || req.ifNoneMatch == ETagGZipped(file.contentID) {
        return NotModified, true, None;
      }
      reply, returned, fetched := ServeFile(req, choice.value, origin, faults);
    }
  }
}
