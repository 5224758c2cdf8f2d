/** The parts of `ServeHTTPFromManifest` that only compute. */
module Serving {
  import opened Wrappers
  import opened Strings
  import opened ObjectIDs
  import opened Content

  /** The pre-computed lookup by path (the source's `optimizedManifest`). */
  type Table = map<string, Entry>

  datatype Request = Request(manifestID: ObjectID, path: string, ifNoneMatch: string, acceptEncoding: string)

  datatype Reply =
    | Full(status: nat, etag: string, gzipped: bool, body: Bytes)
    | NotModified
    | NotFound
    | ServerError
    | NoReply      // an error is returned and nothing has been written

  /** The status and body that the client gets (without the texts of error pages). To a handler that
      returns and has written nothing, net/http adds status 200 and an empty body. */
  function Sent(reply: Reply): (nat, Option<Bytes>) {
    match reply
    case Full(status, _, _, body) => (status, Some(body))
    case NotModified => (304, Some([]))
    case NotFound => (404, None)
    case ServerError => (500, None)
    case NoReply => (200, Some([]))
  }

  const NOT_FOUND_PAGE := "/404.html"

  /** A later line of the manifest replaces an earlier one for the same path. */
  function Optimized(files: seq<Entry>): Table {
    if files == [] then map[]
    else
      var last := files[|files| - 1];
      Optimized(files[..|files| - 1])[last.path := last]
  }

  lemma {:induction false} OptimizedHasAll(files: seq<Entry>)
    ensures forall p :: p in Optimized(files) ==> Optimized(files)[p] in files && Optimized(files)[p].path == p
    ensures forall f :: f in files ==> f.path in Optimized(files)
  {
    if files != [] {
      OptimizedHasAll(files[..|files| - 1]);
    }
  }

  /** Line `k` is the last one for its path. */
  predicate IsLastFor(files: seq<Entry>, k: nat)
    requires k < |files|
  {
    forall j :: k < j < |files| ==> files[j].path != files[k].path
  }

  lemma {:induction false} LastLineWins(files: seq<Entry>, k: nat)
    requires k < |files| && IsLastFor(files, k)
    ensures files[k].path in Optimized(files) && Optimized(files)[files[k].path] == files[k]
  {
    if k < |files| - 1 {
      LastLineWins(files[..|files| - 1], k);
    }
  }

  datatype Choice = Choice(file: Entry, status: nat)

  /** The file to answer with: the one asked for, else the custom 404 page. */
  function Choose(table: Table, path: string): Option<Choice> {
    if path in table then Some(Choice(table[path], 200))
    else if NOT_FOUND_PAGE in table then Some(Choice(table[NOT_FOUND_PAGE], 404))
    else None
  }

  predicate ClientHasIt(req: Request, file: Entry) {
    req.ifNoneMatch == ETagUncompressed(file.contentID) || req.ifNoneMatch == ETagGZipped(file.contentID)
  }

  predicate SupportsGzip(req: Request) {
    Contains(req.acceptEncoding, "gzip")
  }

  /** Go's `path.Ext`: the suffix from the last dot of the last slash-separated element. */
  function Extension(path: string): string {
    ExtensionFrom(path, |path|)
  }

  function ExtensionFrom(path: string, i: nat): string
    requires i <= |path|
  {
    if i == 0 || path[i - 1] == '/' then ""
    else if path[i - 1] == '.' then path[i - 1..]
    else ExtensionFrom(path, i - 1)
  }

  const COMPRESSIBLE := [".js", ".map", ".css", ".html", ".json", ".xml", ".svg", ".txt"]

  predicate CompressesWell(path: string) {
    Extension(path) in COMPRESSIBLE
  }

  predicate HasSuffix(s: string, suffix: string) {
    |suffix| <= |s| && s[|s| - |suffix|..] == suffix
  }

  lemma {:induction false} ExtensionIsSuffix(path: string, i: nat)
    requires i <= |path|
    ensures HasSuffix(path, ExtensionFrom(path, i))
  {
    if i > 0 && path[i - 1] != '/' && path[i - 1] != '.' {
      ExtensionIsSuffix(path, i - 1);
    }
  }

  lemma {:induction false} SuffixIsExtension(path: string, k: nat, i: nat)
    requires k < i <= |path| && path[k] == '.' && forall j :: k < j < |path| ==> path[j] != '.' && path[j] != '/'
    ensures ExtensionFrom(path, i) == path[k..]
  {
    if k < i - 1 {
      SuffixIsExtension(path, k, i - 1);
    }
  }

  /** The names that are kept compressed are those with one of the eight endings. */
  lemma CompressesWellIff(path: string)
    ensures CompressesWell(path) <==>
            || HasSuffix(path, ".js") || HasSuffix(path, ".map") || HasSuffix(path, ".css") || HasSuffix(path, ".html")
            || HasSuffix(path, ".json") || HasSuffix(path, ".xml") || HasSuffix(path, ".svg") || HasSuffix(path, ".txt")
  {
    CompressesWellByList(path);
    var all := COMPRESSIBLE;
    assert all[0] == ".js" && all[1] == ".map" && all[2] == ".css" && all[3] == ".html" && all[4] == ".json"
           && all[5] == ".xml" && all[6] == ".svg" && all[7] == ".txt";
  }

  lemma CompressesWellByList(path: string)
    ensures CompressesWell(path) <==> exists e :: e in COMPRESSIBLE && HasSuffix(path, e)
  {
    ExtensionIsSuffix(path, |path|);
    if e :| e in COMPRESSIBLE && HasSuffix(path, e) {
      var k := |path| - |e|;
      forall j | k < j < |path|
        ensures path[j] != '.' && path[j] != '/'
      {
        assert path[j] == path[k..][j - k] == e[j - k];
      }
      assert path[k] == path[k..][0] == e[0];
      SuffixIsExtension(path, k, |path|);
    }
  }

  /** "gzip" anywhere in the header will do. */
  lemma SupportsGzipIff(req: Request)
    ensures SupportsGzip(req) <==> exists before, after :: req.acceptEncoding == before + "gzip" + after
  {
    ContainsIff(req.acceptEncoding, "gzip");
  }

  /** The answer with the gzipped copy `b`: as it is, or decompressed for a client that needs that. */
  function ReplyFromGzip(c: Codecs, req: Request, choice: Choice, b: Bytes): Reply {
    if SupportsGzip(req) then Full(choice.status, ETagGZipped(choice.file.contentID), true, b)
    else
      match c.gunzip(b)
      case None => NoReply
      case Some(plain) => Full(choice.status, ETagUncompressed(choice.file.contentID), false, plain)
  }

  /** The header names gzip somewhere. */
  ghost predicate AcceptsGzip(req: Request) {
    exists before, after :: req.acceptEncoding == before + "gzip" + after
  }

  /** From the gzipped copy, a client whose header names gzip gets just that copy, under the ETag that
      says so; any other client gets the content. */
  lemma FromGzipIff(c: Codecs, req: Request, choice: Choice, b: Bytes)
    ensures var r, id := ReplyFromGzip(c, req, choice, b), choice.file.contentID;
            && (r.Full? && r.gzipped <==> AcceptsGzip(req))
            && (AcceptsGzip(req) ==> r == Full(choice.status, ETagGZipped(id), true, b))
            && (!AcceptsGzip(req) && c.gunzip(b).Some? ==>
                  r == Full(choice.status, ETagUncompressed(id), false, c.gunzip(b).value))
  {
    SupportsGzipIff(req);
  }

  function ReplyFromPlain(choice: Choice, b: Bytes): Reply {
    Full(choice.status, ETagUncompressed(choice.file.contentID), false, b)
  }

  /** What the client holds once it has undone the Content-Encoding. */
  function Decoded(c: Codecs, reply: Reply): Option<Bytes>
    requires reply.Full?
  {
    if reply.gzipped then c.gunzip(reply.body) else Some(reply.body)
  }

  // --- what a stored copy must be ---

  ghost predicate Genuine(c: Codecs, seen: set<Bytes>, id: ObjectID, b: Bytes) {
    c.hash(b) == id && b in seen
  }

  ghost predicate GenuineGzip(c: Codecs, seen: set<Bytes>, id: ObjectID, b: Bytes) {
    c.gunzip(b).Some? && Genuine(c, seen, id, c.gunzip(b).value)
  }

  /** Each cache holds, under an ID, a copy of the content with that digest. */
  ghost predicate CachesOk(c: Codecs, seen: set<Bytes>, gzipped: map<ObjectID, Bytes>, plain: map<ObjectID, Bytes>) {
    && (forall id :: id in gzipped ==> GenuineGzip(c, seen, id, gzipped[id]))
    && (forall id :: id in plain ==> Genuine(c, seen, id, plain[id]))
  }

  /** `table` was made from a manifest stored under `id`. */
  ghost predicate TableOf(c: Codecs, seen: set<Bytes>, id: ObjectID, table: Table) {
    exists b :: Genuine(c, seen, id, b) && c.decode(b).Some? && table == Optimized(c.decode(b).value.files)
  }

  /** A full answer carries the chosen file, under the ETag of that file in that encoding. */
  ghost predicate FullOk(c: Codecs, seen: set<Bytes>, req: Request, choice: Choice, reply: Reply)
    requires reply.Full?
  {
    && reply.status == choice.status
    && (reply.gzipped ==> SupportsGzip(req))
    && reply.etag == (if reply.gzipped then ETagGZipped(choice.file.contentID) else ETagUncompressed(choice.file.contentID))
    && Decoded(c, reply).Some?
    && Genuine(c, seen, choice.file.contentID, Decoded(c, reply).value)
  }
}
