/** The same deployment on stores that are updated in place: what the workers do to the file store and
    to the shared manifest when they take turns item by item, and how the manifest is published. One
    store may serve as both. */
module Deploying {
  import opened Wrappers
  import opened Strings
  import opened Sorting
  import opened ObjectIDs
  import opened Content
  import opened Stores
  import Deployment

  datatype DeployError = StoreFailed | NoFiles | PublishFailed

  datatype ManifestWithID = ManifestWithID(id: ObjectID, manifest: Manifest)

  /** The store after the items were inserted in turn, and whether all insertions succeeded; the first
      that fails is the last that is tried. */
  function StoreAll(c: Codecs, store: map<ObjectID, Bytes>, items: seq<Item>, faults: seq<InsertFault>)
    : (map<ObjectID, Bytes>, bool)
    requires |faults| == |items|
  {
    if items == [] then (store, true)
    else
      var n := |items| - 1;
      var (before, ok) := StoreAll(c, store, items[..n], faults[..n]);
      if ok then InsertInto(before, c.hash(items[n].content), items[n].content, faults[n]) else (before, false)
  }

  ghost predicate AllStored(c: Codecs, items: seq<Item>, store: map<ObjectID, Bytes>) {
    forall item :: item in items ==> c.hash(item.content) in store
  }

  /** Nothing that was stored before is changed, and what is new is a content of `items` under its digest. */
  ghost predicate OnlyAdded(c: Codecs, items: seq<Item>, before: map<ObjectID, Bytes>, after: map<ObjectID, Bytes>) {
    && (forall id :: id in before ==> id in after && after[id] == before[id])
    && (forall id :: id in after && id !in before ==> IsContentOf(c, items, id, after[id]))
  }

  ghost predicate IsContentOf(c: Codecs, items: seq<Item>, id: ObjectID, content: Bytes) {
    exists item :: item in items && id == c.hash(item.content) && content == item.content
  }

  /** Success means that everything is stored; and whatever fails, only submitted contents are added. */
  lemma {:induction false} StoreAllStores(c: Codecs, store: map<ObjectID, Bytes>, items: seq<Item>, faults: seq<InsertFault>)
    requires |faults| == |items|
    ensures var (after, ok) := StoreAll(c, store, items, faults);
            OnlyAdded(c, items, store, after) && (ok ==> AllStored(c, items, after))
  {
    if items != [] {
      var n := |items| - 1;
      StoreAllStores(c, store, items[..n], faults[..n]);
      var after := StoreAll(c, store, items, faults).0;
      assert items == items[..n] + [items[n]];
      forall id | id in after && id !in store
        ensures IsContentOf(c, items, id, after[id])
      {
        var before := StoreAll(c, store, items[..n], faults[..n]).0;
        if id in before {
          assert IsContentOf(c, items[..n], id, before[id]);
        } else {
          assert items[n] in items;
        }
      }
    }
  }

  /** The first failure decides. */
  lemma {:induction false} StoreAllFails(c: Codecs, store: map<ObjectID, Bytes>, items: seq<Item>, faults: seq<InsertFault>, n: nat)
    requires |faults| == |items| && n <= |items| && !StoreAll(c, store, items[..n], faults[..n]).1
    ensures StoreAll(c, store, items, faults) == StoreAll(c, store, items[..n], faults[..n])
    decreases |items|
  {
    if n < |items| {
      var k := |items| - 1;
      assert items[..k][..n] == items[..n] && faults[..k][..n] == faults[..n];
      StoreAllFails(c, store, items[..k], faults[..k], n);
    } else {
      assert items[..n] == items && faults[..n] == faults;
    }
  }

  /** The manifest that all workers append to. */
  class SharedManifest {
    var files: seq<Entry>

    constructor ()
      ensures files == []
    {
      files := [];
    }
  }

  class DeploymentManager {
    const c: Codecs
    const files: FileStore
    const manifests: FileStore

    constructor (c: Codecs, files: FileStore, manifests: FileStore)
      ensures this.c == c && this.files == files && this.manifests == manifests
    {
      this.c, this.files, this.manifests := c, files, manifests;
    }

    /** A worker's work on one item: store the content, then append to the manifest. */
    method StoreAndAppend(item: Item, manifest: SharedManifest, fault: InsertFault) returns (ok: bool)
      modifies files, manifest
      ensures (files.objects, ok) == InsertInto(old(files.objects), c.hash(item.content), item.content, fault)
      ensures manifest.files == if ok then old(manifest.files) + [c.EntryOf(item)] else old(manifest.files)
    {
      var contentID := c.hash(item.content);
      ok := files.InsertObject(contentID, item.content, fault);
      if ok {
        manifest.files := manifest.files + [Entry(item.path, contentID)];
      }
    }

    /** Stores the items in turn and collects their lines. */
    method StoreItems(items: seq<Item>, faults: seq<InsertFault>, manifest: SharedManifest) returns (ok: bool)
      requires |faults| == |items| && manifest.files == []
      modifies files, manifest
      ensures (files.objects, ok) == StoreAll(c, old(files.objects), items, faults)
      ensures ok ==> manifest.files == c.Entries(items)
    {
      for n := 0 to |items|
        invariant (files.objects, true) == StoreAll(c, old(files.objects), items[..n], faults[..n])
        invariant manifest.files == c.Entries(items[..n])
      {
        assert items[..n + 1][..n] == items[..n] && faults[..n + 1][..n] == faults[..n];
        ok := StoreAndAppend(items[n], manifest, faults[n]);
        if !ok {
          StoreAllFails(c, old(files.objects), items, faults, n + 1);
          return false;
        }
        assert c.Entries(items[..n + 1]) == c.Entries(items[..n]) + [c.EntryOf(items[n])];
      }
      assert items[..|items|] == items && faults[..|items|] == faults;
      ok := true;
    }

    method Deploy(metadata: string, items: seq<Item>, faults: seq<InsertFault>, publishFault: InsertFault)
      returns (r: Result<ManifestWithID, DeployError>)
      requires |faults| == |items|
      modifies files, manifests
      ensures var (stored, ok) := StoreAll(c, old(files.objects), items, faults);
              && (r == Err(StoreFailed) <==> !ok)
              && (r == Err(NoFiles) <==> ok && items == [])
              && (r == Err(PublishFailed) ==>
                    (exists m :: IsPublished(metadata, items, m)
                                 && !InsertInto(if files == manifests then stored else old(manifests.objects),
                                                m.id, c.encode(m.manifest), publishFault).1))
              && (r.Err? || files != manifests ==> files.objects == stored)
              && (r.Err? && files != manifests ==> manifests.objects == old(manifests.objects))
              && (r.Ok? ==> IsPublished(metadata, items, r.value)
                            && (manifests.objects, true) == InsertInto(if files == manifests then stored else old(manifests.objects),
                                                                       r.value.id, c.encode(r.value.manifest), publishFault))
    {
      var manifest := new SharedManifest();
      var ok := StoreItems(items, faults, manifest);
      if !ok {
        return Err(StoreFailed);
      }
      if manifest.files == [] {
        return Err(NoFiles);
      }
      Deployment.PathOrder();
      manifest.files := SortSlice(manifest.files, Deployment.BY_PATH);
      var complete := Manifest(metadata, manifest.files);
      var serialized := c.encode(complete);
      var manifestID := c.hash(serialized);
      ok := manifests.InsertObject(manifestID, serialized, publishFault);
      assert IsPublished(metadata, items, ManifestWithID(manifestID, complete));
      r := if ok then Ok(ManifestWithID(manifestID, complete)) else Err(PublishFailed);
    }

    /** The sorted list of what was submitted, under the digest of its serialisation. */
    ghost predicate IsPublished(metadata: string, items: seq<Item>, m: ManifestWithID) {
      && m.manifest.metadata == metadata && m.id == c.hash(c.encode(m.manifest))
      && IsSortOf(Deployment.BY_PATH, c.Entries(items), m.manifest.files)
    }
  }

  /** Any concurrent run over the same files ends in the manifest that taking turns gives, if no path
      has two contents. */
  lemma AnyRunGivesThis(c: Codecs, r: seq<Deployment.DState>, items: seq<Item>, taken: Manifest)
    requires Deployment.IsDRun(c, r) && r[|r| - 1].outcome.Deployed?
    requires multiset(r[0].items) == multiset(items) && Deployment.OneContentPerPath(c, items)
    requires taken.metadata == r[0].metadata && IsSortOf(Deployment.BY_PATH, c.Entries(items), taken.files)
    ensures r[|r| - 1].outcome == Deployment.Deployed(c.hash(c.encode(taken)), taken)
  {
    var d := r[|r| - 1];
    Deployment.DRunKeepsInv(c, r, |r| - 1);
    Deployment.DeployedMeansAll(c, d);
    EntriesKeepMultiset(c, d.items, items);
    Deployment.OneContentDiscriminates(c, items);
    Deployment.PathOrder();
    SortDeterministicIff(Deployment.BY_PATH, c.Entries(items));
    assert IsSortOf(Deployment.BY_PATH, c.Entries(items), d.outcome.manifest.files);
  }
}
