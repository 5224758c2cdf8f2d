/** The pipe through which a compressible file gets into its cache: a goroutine compresses what the
    origin sends into one end, the insertion into the cache reads from the other, and the download is
    over when both have ended. All schedules. */
module Pipe {
  import opened Wrappers
  import opened Content

  /** What the origin sends: so many pieces of compressed data are due to it until it ends or breaks off. */
  datatype Supply = Supply(pieces: nat, breaks: bool)

  /** What the compressor writes into the pipe in all; at the end of a content it adds a footer. */
  function Written(supply: Supply): nat {
    if supply.breaks then supply.pieces else supply.pieces + 1
  }

  /** After how many pieces the insertion gives up reading, if it does not read to the end. An object
      that is there is not read at all. */
  function ReadsUpTo(present: bool, fault: InsertFault): Option<nat> {
    if present || fault.CheckFails? then Some(0)
    else if fault.WriteStops? then Some(fault.after)
    else None
  }

  datatype Writer = Copying(left: nat) | WriterEnded

  /** `closed`: the compressor has closed its end, which it does not after an error of the origin. */
  datatype PState = PState(writer: Writer, got: nat, reading: bool, closed: bool, returned: bool)

  datatype PEvent =
    | Pass         // one piece goes through
    | EndWriting   // the compressor reports on a buffered channel
    | GiveUp       // the insertion returns, not having read to the end
    | EndOfData    // ... having read to the end
    | Return       // the download takes the report

  function PStart(supply: Supply): PState {
    PState(Copying(Written(supply)), 0, true, false, false)
  }

  function PStep(limit: Option<nat>, supply: Supply, s: PState, e: PEvent): Option<PState> {
    match e
    case Pass =>
      if s.writer.Copying? && s.writer.left > 0 && s.reading && (limit.Some? ==> s.got < limit.value) then
        Some(s.(writer := Copying(s.writer.left - 1), got := s.got + 1))
      else None
    case EndWriting =>
      if s.writer == Copying(0) then Some(s.(writer := WriterEnded, closed := !supply.breaks)) else None
    case GiveUp =>
      if s.reading && limit.Some? && (s.got == limit.value || s.got == Written(supply)) then Some(s.(reading := false)) else None
    case EndOfData => if s.reading && limit.None? && s.closed then Some(s.(reading := false)) else None
    case Return => if !s.reading && s.writer.WriterEnded? && !s.returned then Some(s.(returned := true)) else None
  }

  ghost predicate PNextAt(limit: Option<nat>, supply: Supply, r: seq<PState>, i: nat)
    requires i < |r| - 1
  {
    exists e :: PStep(limit, supply, r[i], e) == Some(r[i + 1])
  }

  ghost predicate IsPRun(limit: Option<nat>, supply: Supply, r: seq<PState>) {
    |r| > 0 && r[0] == PStart(supply) && forall i :: 0 <= i < |r| - 1 ==> PNextAt(limit, supply, r, i)
  }

  ghost predicate PStuck(limit: Option<nat>, supply: Supply, s: PState) {
    forall e :: PStep(limit, supply, s, e).None?
  }

  predicate PInv(limit: Option<nat>, supply: Supply, s: PState) {
    && s.got + (if s.writer.Copying? then s.writer.left else 0) == Written(supply)
    && (limit.Some? ==> s.got <= limit.value)
    && (s.closed <==> s.writer.WriterEnded? && !supply.breaks)
    && (!s.reading ==> if limit.Some? then s.got == limit.value || s.got == Written(supply) else s.closed)
    && (s.returned ==> !s.reading && s.writer.WriterEnded?)
  }

  /** What is left to be done. */
  function PMeasure(s: PState): nat {
    (if s.writer.Copying? then s.writer.left + 1 else 0) + (if s.reading then 1 else 0) + (if s.returned then 0 else 1)
  }

  lemma {:induction false} PRunKeepsInv(limit: Option<nat>, supply: Supply, r: seq<PState>, i: nat)
    requires IsPRun(limit, supply, r) && i < |r|
    ensures PInv(limit, supply, r[i]) && i + PMeasure(r[i]) <= PMeasure(r[0])
  {
    if i > 0 {
      PRunKeepsInv(limit, supply, r, i - 1);
      assert PNextAt(limit, supply, r, i - 1);
    }
  }

  /** One end waits for the other for ever: not all that is written is read, or the end that is waited
      for never comes. */
  predicate Stalls(limit: Option<nat>, supply: Supply) {
    if limit.Some? then limit.value < Written(supply) else supply.breaks
  }

  /** Every schedule comes to a standstill, and whether the download has returned by then is not a
      matter of the schedule: it has if and only if the two ends do not stall. */
  lemma ReturnsIff(limit: Option<nat>, supply: Supply, r: seq<PState>)
    requires IsPRun(limit, supply, r)
    ensures |r| <= supply.pieces + 5
    ensures r[|r| - 1].returned ==> !Stalls(limit, supply)
    ensures PStuck(limit, supply, r[|r| - 1]) ==> (r[|r| - 1].returned <==> !Stalls(limit, supply))
  {
    var s := r[|r| - 1];
    PRunKeepsInv(limit, supply, r, |r| - 1);
    if PStuck(limit, supply, s) && !Stalls(limit, supply) {
      assert PStep(limit, supply, s, Pass).None? && PStep(limit, supply, s, EndWriting).None?;
      assert PStep(limit, supply, s, GiveUp).None? && PStep(limit, supply, s, EndOfData).None?;
      assert PStep(limit, supply, s, Return).None?;
    }
  }
}

/** What becomes of a downloaded content: into the gzipped or the uncompressed cache, by its name. */
module Filling {
  import opened Strings
  import opened ObjectIDs
  import opened Content
  import opened Serving
  import opened Pipe

  type Objects = map<ObjectID, Bytes>

  /** `Hangs`: the download never returns, so that its lock stays held. */
  datatype Filling = Hangs | Ends(gzipped: Objects, plain: Objects, ok: bool)

  function FillCaches(c: Codecs, gzipped: Objects, plain: Objects, file: Entry, content: Bytes, fault: InsertFault,
                      supply: Supply): Filling
  {
    var id := file.contentID;
    if CompressesWell(file.path) then
      if Stalls(ReadsUpTo(id in gzipped, fault), supply) then Hangs
      else
        var (gzipped', ok) := InsertInto(gzipped, id, c.gzip(content), fault);
        Ends(gzipped', plain, ok && !supply.breaks)
    else
      var (plain', ok) := InsertInto(plain, id, content, if supply.breaks && fault.NoFault? then WriteFails else fault);
      Ends(gzipped, plain', ok)
  }

  /** The insertion leaves some of the compressed data unread, because the object is there, the check for
      it fails or the write stops early; or the origin breaks off, and the insertion waits for the rest.
      (With nothing written at all when the origin breaks off, the first two do not matter.) */
  predicate NotReadToEnd(present: bool, fault: InsertFault, supply: Supply) {
    if present || fault.CheckFails? then !(supply.breaks && supply.pieces == 0)
    else if fault.WriteStops? then fault.after < Written(supply)
    else supply.breaks
  }

  /** Exactly when a download hangs: the name says that it compresses well, and its compressed data is not
      read to the end. */
  lemma HangsIff(c: Codecs, gzipped: Objects, plain: Objects, file: Entry, content: Bytes, fault: InsertFault, supply: Supply)
    ensures FillCaches(c, gzipped, plain, file, content, fault, supply).Hangs? <==>
            CompressesWell(file.path) && NotReadToEnd(file.contentID in gzipped, fault, supply)
  {
  }

  /** Where nothing fails, this comes down to the object being there already. */
  lemma FaultlessHangsIff(c: Codecs, gzipped: Objects, plain: Objects, file: Entry, content: Bytes, pieces: nat)
    ensures FillCaches(c, gzipped, plain, file, content, NoFault, Supply(pieces, false)).Hangs? <==>
            CompressesWell(file.path) && file.contentID in gzipped
  {
  }

  /** ... and when one succeeds that ends. */
  lemma SucceedsIff(c: Codecs, gzipped: Objects, plain: Objects, file: Entry, content: Bytes, fault: InsertFault, supply: Supply)
    ensures var f := FillCaches(c, gzipped, plain, file, content, fault, supply);
            f.Ends? ==>
              (f.ok <==> if CompressesWell(file.path) then file.contentID !in gzipped && fault.NoFault?
                         else !fault.CheckFails? && (file.contentID in plain || (fault.NoFault? && !supply.breaks)))
    ensures var f := FillCaches(c, gzipped, plain, file, content, fault, supply);
            f.Ends? && f.ok ==> file.contentID in f.gzipped || file.contentID in f.plain
  {
  }

  /** The compressor and the insertion bear it out, in whatever order they run. */
  lemma HangsAsThePipeDoes(c: Codecs, gzipped: Objects, plain: Objects, file: Entry, content: Bytes,
                           fault: InsertFault, supply: Supply, r: seq<PState>)
    requires CompressesWell(file.path)
    requires IsPRun(ReadsUpTo(file.contentID in gzipped, fault), supply, r)
    requires PStuck(ReadsUpTo(file.contentID in gzipped, fault), supply, r[|r| - 1])
    ensures FillCaches(c, gzipped, plain, file, content, fault, supply).Hangs? <==> !r[|r| - 1].returned
  {
    ReturnsIff(ReadsUpTo(file.contentID in gzipped, fault), supply, r);
  }

  /** Whatever fails, the caches only gain what was downloaded, and have it if success is reported. */
  lemma FillAdds(c: Codecs, gzipped: Objects, plain: Objects, file: Entry, content: Bytes, fault: InsertFault, supply: Supply)
    ensures var f := FillCaches(c, gzipped, plain, file, content, fault, supply);
            f.Ends? ==>
              && f.gzipped == (if CompressesWell(file.path) then
                                 Inserted(gzipped, file.contentID, c.gzip(content), if f.ok then IfAbsent else Nothing) else gzipped)
              && f.plain == (if CompressesWell(file.path) then plain
                             else Inserted(plain, file.contentID, content, if f.ok then IfAbsent else Nothing))
  {
  }
}
