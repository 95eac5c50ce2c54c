/**
 * The staging worker: requests one by one against the log, each write followed
 * by a flush when writes are to be durable, nothing after a failure.
 */
module StagingWorker {
  import opened Units
  import opened Staging
  import opened StagingLog
  import opened SerialRestart

  /** How the disk takes one request. */
  datatype Disk = Disk(good: nat, torn: bool, fence: bool, tornFence: bool, syncs: bool)

  class Worker {
    const log: StagingLog
    const durableWrites: bool
    var failed: bool

    constructor (log: StagingLog, durableWrites: bool)
      ensures this.log == log && this.durableWrites == durableWrites && !failed
    {
      this.log, this.durableWrites, failed := log, durableWrites, false;
    }

    /** Nothing the log holds is unsynced. */
    ghost predicate Quiet()
      reads this, log
    {
      log.Valid() && !log.poisoned && log.synced == |log.file|
    }

    /** The request is in order and the disk takes all of it. */
    predicate Takes(r: Req, disk: Disk)
      reads this, log
    {
      match r
      case Read(offset, length) => !log.poisoned && Whole(log.imageBytes, offset, length)
      case Write(offset, bytes) =>
        !log.poisoned && Whole(log.imageBytes, offset, |bytes|) && TakesBlocks(|bytes| / 4096, disk)
      case _ => true
    }

    /** So it does `n` blocks and the fence behind them. */
    predicate TakesBlocks(n: nat, disk: Disk)
      reads this, log
    {
      n <= disk.good && log.Fits(n) && (n == 0 || (disk.fence && disk.syncs && End(log.next + n + 1) <= U64_MAX))
    }

    /**
     * One request. With durable writes, success appends its whole attempt, synced;
     * after a failure the file holds the first slots of it, one torn slot at most
     * beyond them, and nothing more is synced.
     */
    method Execute(r: Req, disk: Disk) returns (res: Result<seq<byte>, Error>)
      requires log.Valid()
      modifies this, log
      ensures log.Valid() && (failed <==> old(failed) || res.Err?)
      ensures old(failed) ==> res.Err? && log.file == old(log.file) && log.synced == old(log.synced)
      ensures res.Ok? ==> var before := ImageOf(log.imageBytes, old(log.file)[..old(log.next)]);
        && res.value == Answer(before, r)
        && log.next <= |log.file| && ImageOf(log.imageBytes, log.file[..log.next]) == Do(before, r)
      ensures res.Ok? && (r.Flush? || (r.Write? && durableWrites)) ==> log.durable == log.appended
      ensures old(Quiet()) && durableWrites ==> (res.Ok? <==> !old(failed) && old(Takes(r, disk)))
      ensures old(Quiet()) && durableWrites && res.Ok? ==>
        && Quiet() && log.file == old(log.file) + Attempt(Count(old(log.file)), r)
        && res.value == Answer(ImageOf(log.imageBytes, old(log.file)), r)
      ensures old(Quiet()) && durableWrites && res.Err? ==>
        Tried(old(log.file), r, log.file) && log.synced == old(log.synced)
    {
      hide *;
      TakesIs(r, disk);
      TriedNone(log.file, r);
      if failed { return Err(Poisoned); }
      log.Shape();
      DoNothing(ImageOf(log.imageBytes, log.file[..log.next]), r);
      if Quiet() { QuietFacts(); }
      match r {
      case Read(offset, length) =>
        res := log.Read(offset, length);
        if res.Ok? {
          ReadAnswer(log.imageBytes, log.file, r);
        }
        LoggedNothing(log.file, r);
      case Write(offset, bytes) =>
        res := Put(r, disk);
      case Flush =>
        LoggedNothing(log.file, r);
        var flushed := log.Flush(disk.fence, disk.tornFence, disk.syncs);
        res := if flushed.Ok? then Result.Ok([]) else Err(flushed.error);
        if old(Quiet()) && res.Ok? { BecomesQuiet(); }
      case Other =>
        LoggedNothing(log.file, r);
        res := Result.Ok([]);
      }
      if old(Quiet()) && durableWrites && res.Ok? { QuietFacts(); }
      failed := res.Err?;
      if old(Quiet()) && durableWrites && res.Ok? { BecomesQuiet(); }
    }

    /** A write, and the flush behind it if writes are durable. */
    method Put(r: Req, disk: Disk) returns (res: Result<seq<byte>, Error>)
      requires log.Valid() && r.Write?
      modifies log
      ensures log.Valid()
      ensures res.Ok? ==> var before := ImageOf(log.imageBytes, old(log.file)[..old(log.next)]);
        && res.value == Answer(before, r)
        && log.next <= |log.file| && ImageOf(log.imageBytes, log.file[..log.next]) == Do(before, r)
      ensures res.Ok? && durableWrites ==> log.durable == log.appended
      ensures old(Quiet()) && durableWrites ==> (res.Ok? <==> old(Takes(r, disk)))
      ensures old(Quiet()) && durableWrites && res.Ok? ==>
        Quiet() && log.file == old(log.file) + Attempt(Count(old(log.file)), r)
      ensures old(Quiet()) && res.Err? ==> Tried(old(log.file), r, log.file) && log.synced == old(log.synced)
    {
      hide *;
      log.Shape();
      TakesIs(r, disk);
      if Quiet() { QuietFacts(); }
      ghost var f := log.file;
      var wrote := PutBlocks(r, disk);
      if wrote.Err? { return Err(wrote.error); }
      res := Result.Ok([]);
      log.Shape();
      WriteAttempt(log.imageBytes, f, r, log.file);
      if durableWrites {
        var fenced := PutFence(r, disk, f, old(Quiet()));
        if fenced.Err? { return Err(fenced.error); }
      }
    }

    /** The flush behind a write whose blocks `f` did not hold yet. */
    method PutFence(r: Req, disk: Disk, ghost f: seq<Slot>, ghost quiet: bool) returns (res: Result<(), Error>)
      requires log.Valid() && !log.poisoned && r.Write? && RangeOk(log.imageBytes, r.offset, |r.bytes|)
      requires Laid(log.imageBytes, f, r.offset, r.bytes, Blocks(|r.bytes|), log.file)
      requires quiet ==>
        log.synced == |f| && log.durable == Count(f) && log.appended == Count(f) + Blocks(|r.bytes|)
      modifies log
      ensures log.Valid() && log.next <= |log.file| && old(log.next) <= |old(log.file)|
      ensures ImageOf(log.imageBytes, log.file[..log.next]) ==
        ImageOf(log.imageBytes, old(log.file)[..old(log.next)])
      ensures res.Ok? ==> log.durable == log.appended
      ensures quiet ==>
        (res.Ok? <==> Blocks(|r.bytes|) == 0 || (disk.fence && disk.syncs && End(old(log.next) + 1) <= U64_MAX))
      ensures quiet && res.Ok? ==> Quiet() && log.file == f + Attempt(Count(f), r)
      ensures quiet && res.Err? ==> Tried(f, r, log.file) && log.synced == old(log.synced)
    {
      hide *;
      log.Shape();
      WriteAttempt(log.imageBytes, f, r, log.file);
      LaidLength(log.imageBytes, f, r.offset, r.bytes, Blocks(|r.bytes|), log.file);
      ghost var g := log.file;
      var flushed := log.Flush(disk.fence, disk.tornFence, disk.syncs);
      if flushed.Err? {
        if quiet { TriedAll(log.imageBytes, f, r, g, log.file); }
        return Err(flushed.error);
      }
      if quiet {
        log.Shape();
        BecomesQuiet();
      }
      res := Result.Ok(());
    }

    /** The blocks of a write. */
    method PutBlocks(r: Req, disk: Disk) returns (res: Result<(), Error>)
      requires log.Valid() && r.Write?
      modifies log
      ensures log.Valid() && log.synced == old(log.synced) && log.durable == old(log.durable)
      ensures res.Ok? <==>
        && !old(log.poisoned) && Whole(log.imageBytes, r.offset, |r.bytes|)
        && |r.bytes| / 4096 <= disk.good && old(log.Fits(|r.bytes| / 4096))
      ensures res.Ok? ==>
        && !log.poisoned && RangeOk(log.imageBytes, r.offset, |r.bytes|)
        && log.appended == old(log.appended) + Blocks(|r.bytes|) && Blocks(|r.bytes|) == |r.bytes| / 4096
        && old(log.next) == |old(log.file)| && log.next == old(log.next) + Blocks(|r.bytes|)
        && Laid(log.imageBytes, old(log.file), r.offset, r.bytes, Blocks(|r.bytes|), log.file)
      ensures old(Quiet()) && res.Err? ==> Tried(old(log.file), r, log.file)
    {
      hide *;
      log.Shape();
      TriedNone(log.file, r);
      if Quiet() { QuietFacts(); }
      ghost var f := log.file;
      log.RefusedIs(r.offset, |r.bytes|);
      BlocksIs(|r.bytes|);
      if !log.Refused(r.offset, |r.bytes|) { log.InRangeOf(r.offset, |r.bytes|); }
      var wrote := log.Write(r.offset, r.bytes, disk.good, disk.torn);
      if wrote.Err? {
        if old(Quiet()) && !old(log.Refused(r.offset, |r.bytes|)) {
          TriedSome(log.imageBytes, f, r, log.appended - old(log.appended), log.file[..log.next], log.file);
        }
        return Err(wrote.error);
      }
      log.Shape();
      LaidLength(log.imageBytes, f, r.offset, r.bytes, Blocks(|r.bytes|), log.file);
      res := Result.Ok(());
    }

    lemma {:induction false} TakesIs(r: Req, disk: Disk)
      ensures r.Read? ==> Takes(r, disk) == (!log.poisoned && Whole(log.imageBytes, r.offset, r.length))
      ensures r.Flush? || r.Other? ==> Takes(r, disk)
      ensures r.Write? ==> var n := |r.bytes| / 4096;
        Takes(r, disk) == (!log.poisoned && Whole(log.imageBytes, r.offset, |r.bytes|) && n <= disk.good &&
          log.Fits(n) && (n == 0 || (disk.fence && disk.syncs && End(log.next + n + 1) <= U64_MAX)))
    {
    }

    lemma {:induction false} QuietFacts()
      requires Quiet()
      ensures log.Valid() && !log.poisoned && log.synced == |log.file|
      ensures log.next == |log.file| && log.appended == log.durable == Count(log.file) &&
        log.file[..log.next] == log.file
    {
      assert log.file[..|log.file|] == log.file;
    }

    lemma {:induction false} BecomesQuiet()
      requires log.Valid() && !log.poisoned && log.synced == |log.file|
      ensures Quiet()
    {
    }
  }

  /** `g` is `f` and the first slots of an attempt, torn after them or not. */
  ghost predicate Tried(f: seq<Slot>, r: Req, g: seq<Slot>) {
    exists k | 0 <= k <= |Attempt(Count(f), r)| :: Torn(f + Attempt(Count(f), r)[..k], g)
  }

  lemma {:induction false} TriedNone(f: seq<Slot>, r: Req)
    ensures Tried(f, r, f)
  {
    assert f + Attempt(Count(f), r)[..0] == f;
    assert Torn(f + Attempt(Count(f), r)[..0], f);
  }

  /** Part of a write's blocks. */
  lemma {:induction false} TriedSome(imageBytes: nat, f: seq<Slot>, r: Req, k: nat, g: seq<Slot>, h: seq<Slot>)
    requires r.Write? && RangeOk(imageBytes, r.offset, |r.bytes|)
    requires Laid(imageBytes, f, r.offset, r.bytes, k, g) && Torn(g, h)
    ensures Tried(f, r, h)
  {
    hide ImageOf, Count, Splice, Torn, RangeOk, Span, Blocks;
    var n := Count(f);
    if k == 0 {
      assert f + Attempt(n, r)[..0] == f == g;
      assert Torn(f + Attempt(n, r)[..0], h);
    } else {
      SomeBlocks(imageBytes, r, k);
      WriteSlotsCut(n, r.offset, r.bytes, Blocks(|r.bytes|), k);
      assert Attempt(n, r)[..k] == WriteSlots(n, r.offset, r.bytes, k);
      assert Torn(f + Attempt(n, r)[..k], h);
    }
  }

  lemma {:induction false} SomeBlocks(imageBytes: nat, r: Req, k: nat)
    requires r.Write? && RangeOk(imageBytes, r.offset, |r.bytes|) && Span(k) <= |r.bytes| && k > 0
    ensures r.bytes != [] && Span(Blocks(|r.bytes|)) == |r.bytes| && k <= Blocks(|r.bytes|)
  {
    InRange(imageBytes, r.offset, |r.bytes|);
    WholeBlocks(|r.bytes|);
  }

  /** All of the blocks, and the fence or what became of it. */
  lemma {:induction false} TriedAll(imageBytes: nat, f: seq<Slot>, r: Req, g: seq<Slot>, h: seq<Slot>)
    requires r.Write? && RangeOk(imageBytes, r.offset, |r.bytes|)
    requires Laid(imageBytes, f, r.offset, r.bytes, Blocks(|r.bytes|), g)
    requires Torn(g, h) ||
      (r.bytes != [] && h == g + [Good(Record(RecordKind.Fence, Count(f) + Blocks(|r.bytes|), 0, 0), [])])
    ensures Tried(f, r, h)
  {
    if Torn(g, h) {
      TriedSome(imageBytes, f, r, Blocks(|r.bytes|), g, h);
    } else {
      WriteAttempt(imageBytes, f, r, g);
      hide Attempt, Count, Laid;
      var t := Attempt(Count(f), r);
      assert t[..|t|] == t;
      assert Torn(f + t[..|t|], h);
    }
  }

  lemma {:induction false} LoggedNothing(f: seq<Slot>, r: Req)
    requires !r.Write?
    ensures f + Attempt(Count(f), r) == f
    ensures !r.Read? ==> forall image :: Answer(image, r) == []
  {
  }

  lemma {:induction false} ReadAnswer(imageBytes: nat, file: seq<Slot>, r: Req)
    requires r.Read? && RangeOk(imageBytes, r.offset, r.length)
    ensures r.offset + r.length <= imageBytes
    ensures Answer(ImageOf(imageBytes, file), r) == ImageOf(imageBytes, file)[r.offset..r.offset + r.length]
  {
  }

  /** A write's blocks, and the fence its flush adds, are the attempt. */
  lemma {:induction false} WriteAttempt(imageBytes: nat, f: seq<Slot>, r: Req, g: seq<Slot>)
    requires r.Write? && RangeOk(imageBytes, r.offset, |r.bytes|)
    requires Laid(imageBytes, f, r.offset, r.bytes, Blocks(|r.bytes|), g)
    ensures forall image :: Answer(image, r) == []
    ensures ImageOf(imageBytes, g) == Do(ImageOf(imageBytes, f), r)
    ensures Blocks(|r.bytes|) == 0 <==> r.bytes == []
    ensures r.bytes == [] ==> g == f && f + Attempt(Count(f), r) == f
    ensures r.bytes != [] ==>
      g + [Good(Record(RecordKind.Fence, Count(f) + Blocks(|r.bytes|), 0, 0), [])] == f + Attempt(Count(f), r)
  {
    hide ImageOf, Count, Splice;
    InRange(imageBytes, r.offset, |r.bytes|);
    WholeBlocks(|r.bytes|);
    assert r.bytes[..|r.bytes|] == r.bytes;
    assert f + [] == f;
  }

  lemma {:induction false} LaidLength(imageBytes: nat, f: seq<Slot>, offset: nat, bytes: seq<byte>, k: nat,
      g: seq<Slot>)
    requires Laid(imageBytes, f, offset, bytes, k, g)
    ensures |g| == |f| + k
  {
  }

  lemma {:induction false} DoNothing(image: seq<byte>, r: Req)
    ensures !r.Write? ==> Do(image, r) == image
  {
  }
}
