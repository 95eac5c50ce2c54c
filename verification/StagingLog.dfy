/**
 * The synchronous staging log. What the disk does to a call is a parameter of
 * it: how many slot writes succeed, whether a failed one tears, whether the
 * sync succeeds.
 */
module StagingLog {
  import opened Units
  import opened Staging
  import opened StagingCrash

  // ----- the slots of one write ----------------------------------------------

  /** The bytes of `k` blocks. */
  function Span(k: nat): nat { k * BLOCK }

  /** The blocks in a length. */
  function Blocks(length: nat): nat { length / BLOCK }

  lemma {:induction false} SpanStep(k: nat)
    ensures Span(k + 1) == Span(k) + BLOCK && Span(0) == 0 && Span(k) % BLOCK == 0
  {
  }

  lemma {:induction false} SpanOrder(i: nat, k: nat)
    requires i <= k
    ensures Span(i) <= Span(k)
  {
  }

  /** The first `k` slots of a write after `n` appends. */
  function WriteSlots(n: nat, offset: nat, bytes: seq<byte>, k: nat): (s: seq<Slot>)
    requires Span(k) <= |bytes|
    ensures |s| == k
  {
    if k == 0 then [] else
    WriteSlots(n, offset, bytes, k - 1) +
    [Good(Record(Write, n + k, offset + Span(k - 1), BLOCK), bytes[Span(k - 1)..Span(k)])]
  }

  lemma {:induction false} AppendSlot(imageBytes: nat, file: seq<Slot>, s: Slot)
    ensures Count(file + [s]) == Count(file) + if s.IsFence() then 0 else 1
    ensures ImageOf(imageBytes, file + [s]) == Effect(ImageOf(imageBytes, file), s)
    ensures BlocksOf(file + [s]) == Apply(BlocksOf(file), s, |file|)
  {
    assert (file + [s])[..|file|] == file;
  }

  lemma {:induction false} SpliceNothing(image: seq<byte>, offset: nat, bytes: seq<byte>)
    requires offset <= |image| && bytes == []
    ensures Splice(image, offset, bytes) == image
  {
  }

  lemma {:induction false} SpliceMore(image: seq<byte>, offset: nat, a: seq<byte>, b: seq<byte>)
    requires offset + |a| + |b| <= |image|
    ensures Splice(Splice(image, offset, a), offset + |a|, b) == Splice(image, offset, a + b)
  {
  }

  /** One block slot more. */
  lemma {:induction false} WriteStep(imageBytes: nat, file: seq<Slot>, offset: nat, payload: seq<byte>)
    requires Written(imageBytes, file) && RangeOk(imageBytes, offset, BLOCK) && |payload| == BLOCK &&
      Count(file) < U64_MAX
    ensures var f := file + [Good(Record(Write, Count(file) + 1, offset, BLOCK), payload)];
      && Written(imageBytes, f) && Count(f) == Count(file) + 1
      && ImageOf(imageBytes, f) == Splice(ImageOf(imageBytes, file), offset, payload)
  {
    hide Written, Count, ImageOf, Splice;
    var s := Good(Record(Write, Count(file) + 1, offset, BLOCK), payload);
    WrittenAppend(imageBytes, file, s);
    AppendSlot(imageBytes, file, s);
  }

  /** Slot by slot, a write lays its bytes over the image. */
  lemma {:induction false} WriteSlotsImage(imageBytes: nat, file: seq<Slot>, offset: nat, bytes: seq<byte>, k: nat)
    requires Written(imageBytes, file) && RangeOk(imageBytes, offset, |bytes|) && Span(k) <= |bytes|
    requires Count(file) + k <= U64_MAX
    ensures var f := file + WriteSlots(Count(file), offset, bytes, k);
      && Written(imageBytes, f) && Count(f) == Count(file) + k
      && ImageOf(imageBytes, f) == Splice(ImageOf(imageBytes, file), offset, bytes[..Span(k)])
    decreases k
  {
    hide *;
    InRange(imageBytes, offset, |bytes|);
    SpanStep(0);
    if k == 0 {
      WriteNothing(imageBytes, file, offset, bytes);
    } else {
      SpanStep(k - 1);
      WriteSlotsImage(imageBytes, file, offset, bytes, k - 1);
      BlockInRange(imageBytes, offset, |bytes|, k - 1);
      WriteSlotsStep(imageBytes, file, offset, bytes, k);
    }
  }

  lemma {:induction false} WriteNothing(imageBytes: nat, file: seq<Slot>, offset: nat, bytes: seq<byte>)
    requires Written(imageBytes, file) && offset <= imageBytes
    ensures file + WriteSlots(Count(file), offset, bytes, 0) == file
    ensures ImageOf(imageBytes, file) == Splice(ImageOf(imageBytes, file), offset, bytes[..0])
  {
    SpliceNothing(ImageOf(imageBytes, file), offset, bytes[..0]);
  }

  lemma {:induction false} WriteSlotsStep(imageBytes: nat, file: seq<Slot>, offset: nat, bytes: seq<byte>, k: nat)
    requires 0 < k && Span(k) == Span(k - 1) + BLOCK <= |bytes| && offset + |bytes| <= imageBytes
    requires Count(file) + k <= U64_MAX && RangeOk(imageBytes, offset + Span(k - 1), BLOCK)
    requires var f := file + WriteSlots(Count(file), offset, bytes, k - 1);
      && Written(imageBytes, f) && Count(f) == Count(file) + (k - 1)
      && ImageOf(imageBytes, f) == Splice(ImageOf(imageBytes, file), offset, bytes[..Span(k - 1)])
    ensures var f := file + WriteSlots(Count(file), offset, bytes, k);
      && Written(imageBytes, f) && Count(f) == Count(file) + k
      && ImageOf(imageBytes, f) == Splice(ImageOf(imageBytes, file), offset, bytes[..Span(k)])
  {
    hide Written, Count, ImageOf, Splice, RangeOk, Span;
    var n := Count(file);
    var m := Span(k - 1);
    var f := file + WriteSlots(n, offset, bytes, k - 1);
    var block := bytes[m..m + BLOCK];
    assert file + WriteSlots(n, offset, bytes, k) == f + [Good(Record(Write, n + k, offset + m, BLOCK), block)];
    WriteStep(imageBytes, f, offset + m, block);
    SpliceMore(ImageOf(imageBytes, file), offset, bytes[..m], block);
    assert bytes[..m] + block == bytes[..m + BLOCK];
  }

  lemma {:induction false} InRange(imageBytes: nat, offset: nat, length: nat)
    requires RangeOk(imageBytes, offset, length)
    ensures offset + length <= imageBytes && length % BLOCK == 0
  {
  }

  lemma {:induction false} BlockInRange(imageBytes: nat, offset: nat, length: nat, i: nat)
    requires RangeOk(imageBytes, offset, length) && Span(i) + BLOCK <= length
    ensures RangeOk(imageBytes, offset + Span(i), BLOCK)
  {
    SpanStep(i);
  }

  /** `g` is `f`, or `f` and a torn slot. */
  predicate Torn(f: seq<Slot>, g: seq<Slot>) { g == f || g == f + [Damaged] }

  lemma {:induction false} TornIs(f: seq<Slot>, g: seq<Slot>)
    ensures Torn(f, g) <==> g == f || g == f + [Damaged]
  {
  }

  /** A file that is too long for some slots is too long for more. */
  lemma {:induction false} EndGrows(i: nat, n: nat)
    requires i <= n
    ensures End(i) <= End(n)
  {
  }

  /** A range of whole blocks in the image, within the size of a request. */
  predicate Whole(imageBytes: nat, offset: nat, length: nat) {
    && offset % 4096 == 0 && length % 4096 == 0 && length <= 1048576
    && offset + length <= imageBytes && offset + length <= 0xFFFF_FFFF_FFFF_FFFF
  }

  lemma {:induction false} WholeIs(imageBytes: nat, offset: nat, length: nat)
    ensures Whole(imageBytes, offset, length) <==> RangeOk(imageBytes, offset, length) && length <= MAX_REQUEST
  {
  }

  lemma {:induction false} BlocksIs(length: nat)
    ensures Blocks(length) == length / 4096
  {
  }

  // ----- the log -------------------------------------------------------------

  class StagingLog {
    const imageBytes: nat
    var file: seq<Slot>
    var next: nat
    var appended: nat
    var durable: nat
    var blocks: map<nat, nat>
    var poisoned: bool
    /** Slots the disk is known to hold. */
    ghost var synced: nat

    ghost predicate Valid()
      reads this
    {
      && Left(imageBytes, file, next, synced)
      && (!poisoned ==> next == |file|)
      && appended == Count(file[..next]) && durable == Count(file[..synced])
      && blocks == BlocksOf(file[..next])
    }

    /** The image every append so far has built. */
    ghost function Image(): seq<byte>
      requires next <= |file|
      reads this
    {
      ImageOf(imageBytes, file[..next])
    }

    constructor Create(imageBytes: nat)
      ensures Valid() && this.imageBytes == imageBytes && file == [] && !poisoned && synced == 0
      ensures Image() == Zeros(imageBytes)
    {
      this.imageBytes := imageBytes;
      file, next, appended, durable, blocks, poisoned, synced := [], 0, 0, 0, map[], false, 0;
    }

    /** A file that recovery accepted, cut after its last fence and synced. */
    constructor Open(imageBytes: nat, disk: seq<Slot>, o: Opened)
      requires Written(imageBytes, disk[..Committed(disk)])
      requires var kept := disk[..Committed(disk)]; o == Opened(|kept|, Count(kept), Count(kept), BlocksOf(kept))
      ensures Valid() && this.imageBytes == imageBytes && !poisoned
      ensures file == disk[..Committed(disk)] && synced == next == |file| && appended == durable
    {
      this.imageBytes := imageBytes;
      file := disk[..o.next];
      next, appended, durable, blocks, poisoned, synced := o.next, o.appended, o.durable, o.blocks, false, o.next;
      new;
      assert file[..next] == file;
    }

    /** One record. `ok` and `torn` say how the disk took it. */
    method Append(kind: RecordKind, offset: nat, length: nat, payload: seq<byte>, ok: bool, torn: bool)
        returns (res: Result<nat, Error>)
      requires Valid() && !poisoned
      requires Good(Record(kind, 0, offset, length), payload).Decodes()
      requires !kind.Fence? ==> RangeOk(imageBytes, offset, length)
      modifies this
      ensures Valid() && durable == old(durable) && synced == old(synced)
      ensures res.Ok? ==> !poisoned && res.value == appended == old(appended) + if kind.Fence? then 0 else 1
      ensures res.Ok? ==> file == old(file) + [Good(Record(kind, appended, offset, length), payload)]
      ensures res.Err? ==> next == old(next) && appended == old(appended) && file[..next] == old(file)
      ensures res.Err? ==> (poisoned <==> res.error.Io?) && (!poisoned ==> file == old(file))
      ensures res == Err(Exhausted) <==> (!kind.Fence? && old(appended) >= U64_MAX) || End(old(next) + 1) > U64_MAX
      ensures res.Ok? <==> ok && (kind.Fence? || old(appended) < U64_MAX) && End(old(next) + 1) <= U64_MAX
      ensures res.Err? ==> file == old(file) || file == old(file) + [Damaged]
    {
      hide Count, BlocksOf, Apply, Left, RangeOk;
      if !kind.Fence? && appended >= U64_MAX { return Err(Exhausted); }
      var sequence := if kind.Fence? then appended else appended + 1;
      var s := Good(Record(kind, sequence, offset, length), payload);
      if End(next + 1) > U64_MAX { return Err(Exhausted); }
      assert file[..next] == file;
      if !ok {
        TornLeft(imageBytes, file, synced);
        if torn { file := file + [Damaged]; }
        poisoned := true;
        return Err(Io);
      }
      AppendLeft(imageBytes, file, synced, s);
      file := file + [s];
      blocks := Apply(blocks, s, next);
      next := next + 1;
      appended := sequence;
      res := Ok(sequence);
    }

    /** The bytes that make a call fail before anything is written. */
    predicate Refused(offset: nat, length: nat)
      reads this
    {
      poisoned || !RangeOk(imageBytes, offset, length) || length > MAX_REQUEST
    }

    /** Sequence numbers and file offsets suffice for `n` more blocks. */
    predicate Fits(n: nat)
      reads this
    {
      n == 0 || (appended + n <= U64_MAX && End(next + n) <= U64_MAX)
    }

    /** Block by block. The first `good` slot writes succeed; a failed one may tear. */
    method Write(offset: nat, bytes: seq<byte>, good: nat, torn: bool) returns (res: Result<Option<nat>, Error>)
      requires Valid()
      modifies this
      ensures Valid() && durable == old(durable) && synced == old(synced) && next >= old(next)
      ensures old(Refused(offset, |bytes|)) ==>
        res.Err? && file == old(file) && next == old(next) && appended == old(appended) && poisoned == old(poisoned)
      ensures !old(Refused(offset, |bytes|)) ==> next <= |file| && appended >= old(appended)
      ensures !old(Refused(offset, |bytes|)) ==>
        Laid(imageBytes, old(file), offset, bytes, appended - old(appended), file[..next])
      ensures res.Ok? ==> !poisoned && appended == old(appended) + Blocks(|bytes|)
      ensures res.Ok? ==> res.value == if bytes == [] then None else Some(appended)
      ensures res == Err(Io) ==> good < Blocks(|bytes|)
      ensures poisoned <==> old(poisoned) || res == Err(Io)
      ensures res.Ok? <==>
        !old(poisoned) && Whole(imageBytes, offset, |bytes|) && |bytes| / 4096 <= good && old(Fits(|bytes| / 4096))
      ensures !old(poisoned) && res.Err? ==> next <= |file| && Torn(file[..next], file)
    {
      hide *;
      var count := Blocks(|bytes|);
      Shape();
      RefusedIs(offset, |bytes|);
      assert count == |bytes| / 4096 by { BlocksIs(|bytes|); }
      TornIs(file, file);
      if Refused(offset, |bytes|) {
        res := Refuse(offset, |bytes|);
        return;
      }
      ghost var n0, a0 := next, appended;
      FitsIs(count);
      InRangeOf(offset, |bytes|);
      ghost var f0 := file;
      WholeBlocks(|bytes|);
      var i := 0;
      LaidNone(imageBytes, f0, offset, bytes);
      while i < count
        invariant 0 <= i <= count && Valid() && !poisoned && durable == old(durable) && synced == old(synced)
        invariant next == n0 + i && appended == a0 + i && i <= good
        invariant i > 0 ==> a0 + i <= U64_MAX && End(n0 + i) <= U64_MAX
        invariant Laid(imageBytes, f0, offset, bytes, i, file)
      {
        Shape();
        NextBlock(imageBytes, offset, |bytes|, count, i);
        var block := bytes[Span(i)..Span(i + 1)];
        BlockDecodes(offset + Span(i), block);
        ghost var f := file;
        var wrote := Append(RecordKind.Write, offset + Span(i), BLOCK, block, i < good, torn);
        Shape();
        EndGrows(n0 + i + 1, n0 + count);
        if wrote.Err? {
          TornIs(f, file);
          return Err(wrote.error);
        }
        LaidMore(imageBytes, f0, offset, bytes, i, f);
        i := i + 1;
      }
      Shape();
      res := Ok(if bytes == [] then None else Some(appended));
    }

    /** DISCARD and WRITE_ZEROES; an empty range takes no sequence number. */
    method Zero(offset: nat, length: nat, ok: bool, torn: bool) returns (res: Result<Option<nat>, Error>)
      requires Valid()
      modifies this
      ensures Valid() && durable == old(durable) && synced == old(synced) && old(next) <= next <= |file|
      ensures res.Ok? ==> !poisoned && !old(poisoned) && RangeOk(imageBytes, offset, length)
      ensures res.Ok? ==>
        res.value == (if length == 0 then None else Some(appended)) &&
        appended == old(appended) + if length == 0 then 0 else 1
      ensures res.Ok? ==>
        old(next) <= |old(file)| &&
        ImageOf(imageBytes, file[..next]) == Splice(ImageOf(imageBytes, old(file)[..old(next)]), offset, Zeros(length))
      ensures res.Err? ==> next == old(next) && appended == old(appended) && file[..next] == old(file)[..old(next)]
      ensures old(poisoned) || !RangeOk(imageBytes, offset, length) ==>
        res.Err? && file == old(file) && poisoned == old(poisoned)
      ensures res.Ok? <==>
        && !old(poisoned) && RangeOk(imageBytes, offset, length)
        && (length == 0 || (ok && old(appended) < U64_MAX && End(old(next) + 1) <= U64_MAX))
      ensures res.Err? ==> Torn(old(file), file)
      ensures poisoned <==> old(poisoned) || res == Err(Io)
    {
      hide *;
      Shape();
      TornIs(file, file);
      if poisoned { return Err(Poisoned); }
      if !RangeOk(imageBytes, offset, length) { return Err(Range); }
      ghost var f0 := file;
      ZeroSlot(imageBytes, f0, offset, length, appended + 1);
      if length == 0 { return Ok(None); }
      var wrote := Append(RecordKind.Zero, offset, length, [], ok, torn);
      Shape();
      TornIs(f0, file);
      if wrote.Err? { return Err(wrote.error); }
      res := Ok(Some(wrote.value));
    }

    /** One fence and one sync cover everything appended before. */
    method Flush(ok: bool, torn: bool, syncs: bool) returns (res: Result<nat, Error>)
      requires Valid()
      modifies this
      ensures Valid() && appended == old(appended) && old(next) <= next <= |file| && old(next) <= |old(file)|
      ensures ImageOf(imageBytes, file[..next]) == ImageOf(imageBytes, old(file)[..old(next)])
      ensures res.Ok? ==> !old(poisoned) && !poisoned && res.value == durable == appended
      ensures res.Ok? && old(appended) != old(durable) ==>
        synced == next && file == old(file) + [Good(Record(RecordKind.Fence, appended, 0, 0), [])]
      ensures res.Ok? && old(appended) == old(durable) ==> file == old(file) && synced == old(synced)
      ensures res.Err? ==> durable == old(durable) && synced == old(synced)
      ensures old(poisoned) ==> res == Err(Poisoned) && file == old(file)
      ensures res.Ok? <==>
        !old(poisoned) && (old(appended) == old(durable) || (ok && syncs && End(old(next) + 1) <= U64_MAX))
      ensures poisoned <==> old(poisoned) || res == Err(Io)
      ensures res.Err? ==>
        Torn(old(file), file) || file == old(file) + [Good(Record(RecordKind.Fence, appended, 0, 0), [])]
    {
      hide *;
      Shape();
      TornIs(file, file);
      if poisoned { return Err(Poisoned); }
      if appended != durable {
        var fenced := Commit(ok, torn, syncs);
        if fenced.Err? { return Err(fenced.error); }
      }
      res := Ok(durable);
    }

    /** The fence and the sync. */
    method Commit(ok: bool, torn: bool, syncs: bool) returns (res: Result<(), Error>)
      requires Valid() && !poisoned
      modifies this
      ensures Valid() && appended == old(appended) && old(next) <= next <= |file| && old(next) == |old(file)|
      ensures ImageOf(imageBytes, file[..next]) == ImageOf(imageBytes, old(file)[..old(next)])
      ensures res.Ok? <==> ok && syncs && End(old(next) + 1) <= U64_MAX
      ensures res.Ok? ==> !poisoned && durable == appended && synced == next
      ensures res.Ok? ==> file == old(file) + [Good(Record(RecordKind.Fence, appended, 0, 0), [])]
      ensures res.Err? ==> durable == old(durable) && synced == old(synced) && (poisoned <==> res == Err(Io))
      ensures res.Err? ==>
        Torn(old(file), file) || file == old(file) + [Good(Record(RecordKind.Fence, appended, 0, 0), [])]
    {
      hide *;
      Shape();
      ghost var f := file;
      FenceSlot(imageBytes, file, appended);
      var wrote := Append(RecordKind.Fence, 0, 0, [], ok, torn);
      Shape();
      if wrote.Err? {
        TornIs(f, file);
        return Err(wrote.error);
      }
      if !syncs {
        poisoned := true;
        Rebuild();
        return Err(Io);
      }
      LeftSynced(imageBytes, file, synced);
      durable := appended;
      synced := next;
      Rebuild();
      res := Ok(());
    }

    /** Blocks never written read as zeros; the rest come from their newest slot. */
    method Read(offset: nat, length: nat) returns (res: Result<seq<byte>, Error>)
      requires Valid()
      ensures next <= |file|
      ensures res == if poisoned then Err(Poisoned) else if !RangeOk(imageBytes, offset, length) then Err(Range)
                     else if length > MAX_REQUEST then Err(RequestTooLarge) else Ok(Image()[offset..offset + length])
      ensures res.Ok? <==> !poisoned && Whole(imageBytes, offset, length)
    {
      hide *;
      Shape();
      WholeIs(imageBytes, offset, length);
      if poisoned { return Err(Poisoned); }
      if !RangeOk(imageBytes, offset, length) { return Err(Range); }
      if length > MAX_REQUEST { return Err(RequestTooLarge); }
      InRange(imageBytes, offset, length);
      var count := Blocks(length);
      WholeBlocks(length);
      ghost var image := Image();
      var bytes: seq<byte> := [];
      var i := 0;
      SpanStep(0);
      while i < count
        invariant 0 <= i <= count && Span(i) <= length && bytes == image[offset..offset + Span(i)]
      {
        NextBlock(imageBytes, offset, length, count, i);
        var block := Fetch(offset + Span(i));
        if block.Err? { return block; }
        Joined(image, offset, offset + Span(i), offset + Span(i + 1));
        bytes := bytes + block.value;
        i := i + 1;
      }
      res := Ok(bytes);
    }

    method Fetch(o: nat) returns (res: Result<seq<byte>, Error>)
      requires Valid() && !poisoned && RangeOk(imageBytes, o, BLOCK)
      ensures next <= |file| && o + BLOCK <= imageBytes && |Image()| == imageBytes
      ensures res == Ok(Image()[o..o + BLOCK])
    {
      hide *;
      Shape();
      ReadBlock(imageBytes, file, o);
      if o !in blocks { return Ok(Zeros(BLOCK)); }
      var position := blocks[o];
      var s := file[position];
      if !s.Decodes() { return Err(Corrupt(position)); }
      if !s.record.kind.Write? || s.record.offset != o { return Err(Corrupt(position)); }
      res := Ok(s.payload);
    }

    /** The checks a read or a write makes first. */
    method Refuse(offset: nat, length: nat) returns (res: Result<Option<nat>, Error>)
      requires Refused(offset, length)
      ensures res.Err? && !res.error.Io?
      ensures res == Err(if poisoned then Poisoned else if !RangeOk(imageBytes, offset, length) then Range
        else RequestTooLarge)
    {
      if poisoned { return Err(Poisoned); }
      if !RangeOk(imageBytes, offset, length) { return Err(Range); }
      res := Err(RequestTooLarge);
    }

    lemma {:induction false} Shape()
      requires Valid()
      ensures synced <= next <= |file| && Image() == ImageOf(imageBytes, file[..next])
      ensures Left(imageBytes, file, next, synced) && durable == Count(file[..synced]) &&
        blocks == BlocksOf(file[..next])
      ensures Written(imageBytes, file[..next]) && appended == Count(file[..next]) <= U64_MAX
      ensures !poisoned ==> next == |file| && file[..next] == file
    {
      CountBound(imageBytes, file[..next]);
    }

    lemma {:induction false} RefusedIs(offset: nat, length: nat)
      ensures Refused(offset, length) <==> poisoned || !Whole(imageBytes, offset, length)
    {
    }

    lemma {:induction false} FitsIs(n: nat)
      ensures Fits(n) <==> n == 0 || (appended + n <= U64_MAX && End(next + n) <= U64_MAX)
    {
    }

    lemma {:induction false} Rebuild()
      requires next == |file| && Left(imageBytes, file, next, synced)
      requires appended == Count(file[..next]) && durable == Count(file[..synced]) && blocks == BlocksOf(file[..next])
      ensures Valid()
    {
    }

    lemma {:induction false} InRangeOf(offset: nat, length: nat)
      requires !Refused(offset, length)
      ensures !poisoned && RangeOk(imageBytes, offset, length) && offset + length <= imageBytes && length % BLOCK == 0
    {
    }
  }

  lemma {:induction false} Joined(s: seq<byte>, a: nat, b: nat, c: nat)
    requires a <= b <= c <= |s|
    ensures s[a..b] + s[b..c] == s[a..c]
  {
  }

  lemma {:induction false} ReadBlock(imageBytes: nat, file: seq<Slot>, o: nat)
    requires Written(imageBytes, file) && RangeOk(imageBytes, o, BLOCK)
    ensures o + BLOCK <= imageBytes
    ensures var blocks := BlocksOf(file); var image := ImageOf(imageBytes, file);
      if o in blocks then
        && blocks[o] < |file| && file[blocks[o]].Good? && file[blocks[o]].Decodes() &&
             file[blocks[o]].record.kind.Write?
        && file[blocks[o]].record.offset == o && image[o..o + BLOCK] == file[blocks[o]].payload
      else image[o..o + BLOCK] == Zeros(BLOCK)
  {
    BlocksRead(imageBytes, file, o);
    hide Count, BlocksOf, ImageOf;
    if o in BlocksOf(file) {
      assert Follows(imageBytes, Count(file[..BlocksOf(file)[o]]), file[BlocksOf(file)[o]]);
    }
  }

  lemma {:induction false} ZeroSlot(imageBytes: nat, file: seq<Slot>, offset: nat, length: nat, sequence: nat)
    requires RangeOk(imageBytes, offset, length)
    ensures offset + length <= imageBytes && |Zeros(length)| == length
    ensures length == 0 ==> ImageOf(imageBytes, file) == Splice(ImageOf(imageBytes, file), offset, Zeros(length))
    ensures length > 0 ==> Good(Record(RecordKind.Zero, 0, offset, length), []).Decodes()
    ensures ImageOf(imageBytes, file + [Good(Record(RecordKind.Zero, sequence, offset, length), [])]) ==
            Splice(ImageOf(imageBytes, file), offset, Zeros(length))
  {
    AppendSlot(imageBytes, file, Good(Record(RecordKind.Zero, sequence, offset, length), []));
    if length == 0 {
      SpliceNothing(ImageOf(imageBytes, file), offset, Zeros(0));
    }
  }

  lemma {:induction false} FenceSlot(imageBytes: nat, file: seq<Slot>, sequence: nat)
    ensures var s := Good(Record(RecordKind.Fence, sequence, 0, 0), []);
      && s.Decodes() && s.IsFence() && Good(Record(RecordKind.Fence, 0, 0, 0), []).Decodes()
      && ImageOf(imageBytes, file + [s]) == ImageOf(imageBytes, file)
  {
    AppendSlot(imageBytes, file, Good(Record(RecordKind.Fence, sequence, 0, 0), []));
  }

  lemma {:induction false} LeftSynced(imageBytes: nat, file: seq<Slot>, synced: nat)
    requires Left(imageBytes, file, |file|, synced) && |file| > 0 && file[|file| - 1].IsFence()
    ensures Left(imageBytes, file, |file|, |file|)
  {
  }

  lemma {:induction false} CountBound(imageBytes: nat, file: seq<Slot>)
    requires Written(imageBytes, file)
    ensures Count(file) <= U64_MAX
    decreases |file|
  {
    if file != [] {
      assert Follows(imageBytes, Count(file[..|file| - 1]), file[|file| - 1]);
      hide Written;
      WrittenPrefix(imageBytes, file, |file| - 1);
      CountBound(imageBytes, file[..|file| - 1]);
    }
  }

  lemma {:induction false} WholeBlocks(length: nat)
    requires length % BLOCK == 0
    ensures Span(Blocks(length)) == length
  {
  }

  lemma {:induction false} NextBlock(imageBytes: nat, offset: nat, length: nat, count: nat, i: nat)
    requires RangeOk(imageBytes, offset, length) && Span(count) == length && i < count
    ensures Span(i + 1) == Span(i) + BLOCK <= length && RangeOk(imageBytes, offset + Span(i), BLOCK)
  {
    SpanOrder(i + 1, count);
    BlockInRange(imageBytes, offset, length, i);
  }

  lemma {:induction false} BlockDecodes(offset: nat, block: seq<byte>)
    requires |block| == BLOCK
    ensures Good(Record(Write, 0, offset, BLOCK), block).Decodes()
  {
  }

  /** The first `k` blocks of a write have been laid over what `f0` held. */
  ghost predicate Laid(imageBytes: nat, f0: seq<Slot>, offset: nat, bytes: seq<byte>, k: nat, f: seq<Slot>) {
    && Span(k) <= |bytes| && offset + |bytes| <= imageBytes
    && f == f0 + WriteSlots(Count(f0), offset, bytes, k)
    && ImageOf(imageBytes, f) == Splice(ImageOf(imageBytes, f0), offset, bytes[..Span(k)])
  }

  lemma {:induction false} LaidNone(imageBytes: nat, f0: seq<Slot>, offset: nat, bytes: seq<byte>)
    requires Written(imageBytes, f0) && RangeOk(imageBytes, offset, |bytes|)
    ensures Laid(imageBytes, f0, offset, bytes, 0, f0)
  {
    hide Written, Count, ImageOf, Splice;
    WriteNothing(imageBytes, f0, offset, bytes);
  }

  lemma {:induction false} LaidMore(imageBytes: nat, f0: seq<Slot>, offset: nat, bytes: seq<byte>, k: nat, f: seq<Slot>)
    requires Written(imageBytes, f0) && RangeOk(imageBytes, offset, |bytes|) &&
      Laid(imageBytes, f0, offset, bytes, k, f)
    requires Span(k + 1) == Span(k) + BLOCK <= |bytes| && Count(f0) + k < U64_MAX
    ensures Laid(imageBytes, f0, offset, bytes, k + 1,
      f + [Good(Record(Write, Count(f0) + k + 1, offset + Span(k), BLOCK), bytes[Span(k)..Span(k + 1)])])
  {
    hide Written, Count, ImageOf, Splice, Span, RangeOk;
    WriteSlotsImage(imageBytes, f0, offset, bytes, k + 1);
    assert f0 + WriteSlots(Count(f0), offset, bytes, k + 1) ==
      f + [Good(Record(Write, Count(f0) + k + 1, offset + Span(k), BLOCK), bytes[Span(k)..Span(k + 1)])];
  }

  lemma {:induction false} TornLeft(imageBytes: nat, file: seq<Slot>, synced: nat)
    requires Left(imageBytes, file, |file|, synced)
    ensures Left(imageBytes, file + [Damaged], |file|, synced)
    ensures synced <= |file| && (file + [Damaged])[..|file|] == file && (file + [Damaged])[..synced] == file[..synced]
  {
    assert file[..|file|] == file;
    assert (file + [Damaged])[..|file|] == file;
    assert (file + [Damaged])[..synced] == file[..synced];
  }

  lemma {:induction false} AppendLeft(imageBytes: nat, file: seq<Slot>, synced: nat, s: Slot)
    requires Left(imageBytes, file, |file|, synced) && Follows(imageBytes, Count(file), s)
    ensures Left(imageBytes, file + [s], |file| + 1, synced)
    ensures synced <= |file| && (file + [s])[..synced] == file[..synced] && (file + [s])[..|file| + 1] == file + [s]
    ensures Count(file + [s]) == Count(file) + if s.IsFence() then 0 else 1
    ensures BlocksOf(file + [s]) == Apply(BlocksOf(file), s, |file|)
  {
    assert file[..|file|] == file;
    assert (file + [s])[..|file| + 1] == file + [s];
    WrittenAppend(imageBytes, file, s);
    AppendSlot(imageBytes, file, s);
  }
}
