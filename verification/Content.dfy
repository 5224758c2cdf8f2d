/** What is stored and served: files, manifests, content-addressed stores, and the codecs involved. */
module Content {
  import opened Wrappers
  import opened Strings
  import opened ObjectIDs
  import opened Permutations

  /** One line of a manifest (the source's `Path`). */
  datatype Entry = Entry(path: string, contentID: ObjectID)

  datatype Manifest = Manifest(metadata: string, files: seq<Entry>)

  /** One file handed to `Deploy`. */
  datatype Item = Item(path: string, content: Bytes)

  /** The functions of libraries: SHA-256, gzip and the JSON form of a manifest. */
  datatype Codecs = Codecs(
    hash: Bytes -> ObjectID,
    gzip: Bytes -> Bytes,
    gunzip: Bytes -> Option<Bytes>,
    encode: Manifest -> Bytes,
    decode: Bytes -> Option<Manifest>)
  {
    /** Decompressing and decoding undo compressing and encoding. Nothing is said of `hash`. */
    ghost predicate Lawful() {
      && (forall b :: gunzip(gzip(b)) == Some(b))
      && (forall m :: decode(encode(m)) == Some(m))
    }

    /** No two different byte strings among `seen` have the same digest. */
    ghost predicate NoCollision(seen: set<Bytes>) {
      forall a, b :: a in seen && b in seen && hash(a) == hash(b) ==> a == b
    }

    function EntryOf(item: Item): Entry {
      Entry(item.path, hash(item.content))
    }

    function Entries(items: seq<Item>): (e: seq<Entry>)
      ensures |e| == |items| && forall i :: 0 <= i < |items| ==> e[i] == EntryOf(items[i])
    {
      seq(|items|, i requires 0 <= i < |items| => EntryOf(items[i]))
    }
  }

  lemma {:induction false} EntriesKeepMultiset(c: Codecs, a: seq<Item>, b: seq<Item>)
    requires multiset(a) == multiset(b)
    ensures multiset(c.Entries(a)) == multiset(c.Entries(b))
  {
    if a == [] {
      assert |b| == |multiset(b)| == 0;
    } else {
      var j := IndexIn(a, b);
      SameWithout(a, b, j);
      EntriesKeepMultiset(c, a[1..], b[..j] + b[j + 1..]);
      AddEntry(c, a, b, j);
    }
  }

  lemma AddEntry(c: Codecs, a: seq<Item>, b: seq<Item>, j: nat)
    requires a != [] && j < |b| && b[j] == a[0]
    requires multiset(c.Entries(a[1..])) == multiset(c.Entries(b[..j] + b[j + 1..]))
    ensures multiset(c.Entries(a)) == multiset(c.Entries(b))
  {
    var rest := multiset(c.Entries(a[1..]));
    assert multiset(c.Entries(a)) == rest + multiset{c.EntryOf(a[0])} by {
      assert c.Entries(a) == [c.EntryOf(a[0])] + c.Entries(a[1..]);
    }
    assert multiset(c.Entries(b)) == rest + multiset{c.EntryOf(a[0])} by {
      EntriesWithout(c, b, j);
    }
  }

  lemma EntriesWithout(c: Codecs, s: seq<Item>, j: nat)
    requires j < |s|
    ensures multiset(c.Entries(s)) == multiset(c.Entries(s[..j] + s[j + 1..])) + multiset{c.EntryOf(s[j])}
  {
    var e := c.Entries(s);
    MultisetWithout(e, j);
    assert c.Entries(s[..j] + s[j + 1..]) == e[..j] + e[j + 1..];
  }

  /** How one insertion into a store ends up: the stores over files and S3 keep what they have, the
      one in RAM overwrites, and a failing insertion may or may not have written. */
  datatype Write = IfAbsent | Overwrite | Nothing

  function Inserted(store: map<ObjectID, Bytes>, id: ObjectID, content: Bytes, how: Write): (r: map<ObjectID, Bytes>)
    ensures store.Keys <= r.Keys <= store.Keys + {id}
    ensures how != Nothing ==> id in r
    ensures forall k :: k in store && k != id ==> r[k] == store[k]
    ensures id in r ==> r[id] == content || (id in store && r[id] == store[id])
  {
    if how == Nothing || (how == IfAbsent && id in store) then store else store[id := content]
  }

  /** Why an object cannot be had: it is not there, or the store does not answer. */
  datatype CasError = NotExist | Unavailable

  function ReadFrom(store: map<ObjectID, Bytes>, id: ObjectID, fault: bool): Result<Bytes, CasError> {
    if fault then Err(Unavailable) else if id in store then Ok(store[id]) else Err(NotExist)
  }

  /** What fails in an insertion into the store over files: looking for the object, writing it after so
      many pieces of the content were read, or putting the file in its place once all was read. */
  datatype InsertFault = NoFault | CheckFails | WriteStops(after: nat) | WriteFails

  /** The store afterwards, and whether the insertion reports success. */
  function InsertInto(store: map<ObjectID, Bytes>, id: ObjectID, content: Bytes, fault: InsertFault)
    : (r: (map<ObjectID, Bytes>, bool))
    ensures r.0 == Inserted(store, id, content, if r.1 then IfAbsent else Nothing)
    ensures r.1 ==> id in r.0
    ensures fault.NoFault? ==> r.1
  {
    if fault.CheckFails? then (store, false)
    else if id in store then (store, true)
    else if fault.NoFault? then (store[id := content], true)
    else (store, false)
  }

  /** What a deployment published. */
  datatype Release = Release(id: ObjectID, manifest: Manifest, items: seq<Item>)

  /** The origin stores, with everything ever hashed and published (both only grow). */
  datatype Origin = Origin(
    files: map<ObjectID, Bytes>,
    manifests: map<ObjectID, Bytes>,
    seen: set<Bytes>,
    releases: set<Release>)
}
