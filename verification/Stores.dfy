/** The content-addressed stores. */
module Stores {
  import opened Wrappers
  import opened Strings
  import opened ObjectIDs
  import opened Content

  /** Objects as files in a directory: an existing file is left alone. */
  class FileStore {
    var objects: map<ObjectID, Bytes>

    constructor ()
      ensures objects == map[]
    {
      objects := map[];
    }

    method GetObject(id: ObjectID, fault: bool) returns (r: Result<Bytes, CasError>)
      ensures r == ReadFrom(objects, id, fault)
    {
      if fault {
        return Err(Unavailable);
      }
      r := if id in objects then Ok(objects[id]) else Err(NotExist);
    }

    method InsertObject(id: ObjectID, content: Bytes, fault: InsertFault) returns (ok: bool)
      modifies this
      ensures (objects, ok) == InsertInto(old(objects), id, content, fault)
      ensures !ok || id in old(objects) ==> objects == old(objects)
    {
      if fault.CheckFails? {
        return false;
      }
      if id in objects {
        return true;
      }
      if !fault.NoFault? {
        return false;
      }
      objects := objects[id := content];
      ok := true;
    }
  }

  /** Objects in RAM, with counters: the last insertion wins. */
  class InMemoryStore {
    var files: map<ObjectID, Bytes>
    var gets: nat
    var puts: nat

    constructor ()
      ensures files == map[] && gets == puts == 0
    {
      files, gets, puts := map[], 0, 0;
    }

    method GetObject(id: ObjectID) returns (r: Result<Bytes, CasError>)
      modifies this`gets
      ensures r == ReadFrom(files, id, false) && gets == old(gets) + 1
    {
      gets := gets + 1;
      r := if id in files then Ok(files[id]) else Err(NotExist);
    }

    /** `fault`: the content cannot be read to its end. */
    method InsertObject(id: ObjectID, content: Bytes, fault: bool) returns (ok: bool)
      modifies this`files, this`puts
      ensures ok == !fault && puts == old(puts) + 1
      ensures files == Inserted(old(files), id, content, if ok then Overwrite else Nothing)
    {
      puts := puts + 1;
      if fault {
        return false;
      }
      files := files[id := content];
      ok := true;
    }
  }

  /** A store into which contents were put one after the other, each under its own digest. */
  function Filled(c: Codecs, contents: seq<Bytes>, how: Write): map<ObjectID, Bytes> {
    if contents == [] then map[]
    else
      var last := contents[|contents| - 1];
      Inserted(Filled(c, contents[..|contents| - 1], how), c.hash(last), last, how)
  }

  lemma {:induction false} FilledHasContents(c: Codecs, contents: seq<Bytes>, how: Write, id: ObjectID)
    ensures id in Filled(c, contents, how) ==>
              Filled(c, contents, how)[id] in contents && c.hash(Filled(c, contents, how)[id]) == id
  {
    if contents != [] {
      FilledHasContents(c, contents[..|contents| - 1], how, id);
    }
  }

  lemma {:induction false} FilledAgree(c: Codecs, contents: seq<Bytes>, s: set<Bytes>)
    requires c.NoCollision(s) && forall b :: b in contents ==> b in s
    ensures Filled(c, contents, IfAbsent) == Filled(c, contents, Overwrite)
  {
    if contents != [] {
      var rest, last := contents[..|contents| - 1], contents[|contents| - 1];
      FilledAgree(c, rest, s);
      FilledHasContents(c, rest, IfAbsent, c.hash(last));
    }
  }

  lemma FilledWithTwo(c: Codecs, a: Bytes, b: Bytes)
    requires c.hash(a) == c.hash(b) && a != b
    ensures Filled(c, [a, b], IfAbsent) != Filled(c, [a, b], Overwrite)
  {
    forall how | how != Nothing
      ensures Filled(c, [a], how) == map[c.hash(a) := a]
    {
      assert Filled(c, [a][..0], how) == map[];
    }
    assert forall how :: Filled(c, [a, b], how) == Inserted(Filled(c, [a], how), c.hash(b), b, how) by {
      assert [a, b][..1] == [a];
    }
    assert Filled(c, [a, b], IfAbsent)[c.hash(a)] == a && Filled(c, [a, b], Overwrite)[c.hash(a)] == b;
  }

  /** Keeping and overwriting cannot be told apart, whatever is stored in whatever order, exactly
      when no two of the contents have the same digest. */
  lemma StoresAgreeIff(c: Codecs, s: set<Bytes>)
    ensures c.NoCollision(s) <==>
            forall contents :: (forall b :: b in contents ==> b in s) ==>
              Filled(c, contents, IfAbsent) == Filled(c, contents, Overwrite)
  {
    if c.NoCollision(s) {
      forall contents | forall b :: b in contents ==> b in s
        ensures Filled(c, contents, IfAbsent) == Filled(c, contents, Overwrite)
      {
        FilledAgree(c, contents, s);
      }
    } else {
      var a, b :| a in s && b in s && c.hash(a) == c.hash(b) && a != b;
      FilledWithTwo(c, a, b);
      assert forall x :: x in [a, b] ==> x in s;
    }
  }
}
