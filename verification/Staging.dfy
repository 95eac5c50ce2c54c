/**
 * The staging log as a file of fixed-size slots, and what a prefix of it means:
 * how many appends it holds, the image they build, and where each block's
 * newest bytes lie.
 */
module Staging {
  import opened Units

  const RECORD_SIZE: nat := 8192

  type byte = x: int | 0 <= x < 256

  datatype RecordKind = Write | Zero | Fence

  datatype Record = Record(kind: RecordKind, sequence: nat, offset: nat, length: nat)

  /** A slot whose checksum holds, or one whose checksum does not. */
  datatype Slot = Good(record: Record, payload: seq<byte>) | Damaged {
    /** The slot decodes to its record. */
    predicate Decodes() {
      && Good?
      && match record.kind
         case Write => record.length == BLOCK == |payload|
         case Zero => record.length > 0
         case Fence => record.offset == 0 && record.length == 0
    }

    predicate IsFence() { Decodes() && record.kind.Fence? }
  }

  datatype Error = Io | Corrupt(slot: nat) | Range | RequestTooLarge | Poisoned | Exhausted

  predicate RangeOk(imageBytes: nat, offset: nat, length: nat) {
    offset % BLOCK == 0 && length % BLOCK == 0 && offset + length <= U64_MAX && offset + length <= imageBytes
  }

  /** The file offset one past slot `n - 1`. */
  function End(n: nat): nat { BLOCK + n * RECORD_SIZE }

  // ----- the image -----------------------------------------------------------

  function Zeros(n: nat): (z: seq<byte>)
    ensures |z| == n && forall i | 0 <= i < n :: z[i] == 0
  {
    seq(n, _ => 0)
  }

  /** `image` with `bytes` laid over it at `offset`. */
  function Splice(image: seq<byte>, offset: nat, bytes: seq<byte>): (r: seq<byte>)
    requires offset + |bytes| <= |image|
    ensures |r| == |image|
  {
    image[..offset] + bytes + image[offset + |bytes|..]
  }

  /** What a record does to the image. */
  function Effect(image: seq<byte>, s: Slot): (r: seq<byte>)
    ensures |r| == |image|
  {
    if s.Damaged? then image else
    match s.record.kind
    case Write => if s.record.offset + |s.payload| <= |image| then Splice(image, s.record.offset, s.payload) else image
    case Zero =>
      if s.record.offset + s.record.length <= |image|
      then Splice(image, s.record.offset, Zeros(s.record.length)) else image
    case Fence => image
  }

  function ImageOf(imageBytes: nat, file: seq<Slot>): (r: seq<byte>)
    ensures |r| == imageBytes
  {
    if file == [] then Zeros(imageBytes)
    else Effect(ImageOf(imageBytes, file[..|file| - 1]), file[|file| - 1])
  }

  /** Appends, not counting fences. */
  function Count(file: seq<Slot>): nat {
    if file == [] then 0
    else Count(file[..|file| - 1]) + if file[|file| - 1].IsFence() then 0 else 1
  }

  /** Which slot holds each block, as the log's tree has it. */
  function Apply(blocks: map<nat, nat>, s: Slot, position: nat): map<nat, nat> {
    if s.Damaged? then blocks else
    match s.record.kind
    case Write => blocks[s.record.offset := position]
    case Zero => map o | o in blocks && (o < s.record.offset || o >= s.record.offset + s.record.length) :: blocks[o]
    case Fence => blocks
  }

  function BlocksOf(file: seq<Slot>): map<nat, nat> {
    if file == [] then map[]
    else Apply(BlocksOf(file[..|file| - 1]), file[|file| - 1], |file| - 1)
  }

  /** The slot a log with `n` appends so far writes next. */
  predicate Follows(imageBytes: nat, n: nat, s: Slot) {
    && s.Decodes()
    && if s.record.kind.Fence? then s.record.sequence == n
       else s.record.sequence == n + 1 <= U64_MAX && RangeOk(imageBytes, s.record.offset, s.record.length)
  }

  /** Every slot is what the log itself writes there. */
  ghost predicate Written(imageBytes: nat, file: seq<Slot>) {
    forall i | 0 <= i < |file| :: Follows(imageBytes, Count(file[..i]), file[i])
  }

  lemma {:induction false} WrittenAppend(imageBytes: nat, file: seq<Slot>, s: Slot)
    requires Written(imageBytes, file) && Follows(imageBytes, Count(file), s)
    ensures Written(imageBytes, file + [s])
  {
    var f := file + [s];
    forall i | 0 <= i < |f| ensures Follows(imageBytes, Count(f[..i]), f[i]) {
      assert f[..i] == file[..i];
      if i == |file| { assert file[..i] == file; }
    }
  }

  lemma {:induction false} WrittenPrefix(imageBytes: nat, file: seq<Slot>, n: nat)
    requires Written(imageBytes, file) && n <= |file|
    ensures Written(imageBytes, file[..n])
  {
    forall i | 0 <= i < n ensures Follows(imageBytes, Count(file[..n][..i]), file[..n][i]) {
      assert file[..n][..i] == file[..i];
    }
  }

  lemma {:induction false} CountMonotone(file: seq<Slot>, i: nat, j: nat)
    requires i <= j <= |file|
    ensures Count(file[..i]) <= Count(file[..j])
    decreases j
  {
    if i < j {
      assert file[..j][..j - 1] == file[..j - 1];
      CountMonotone(file, i, j - 1);
    }
  }

  // ----- a block read through the tree is the image's ------------------------

  /** The tree and the file give block `o` the image's bytes. */
  ghost predicate Reads(imageBytes: nat, file: seq<Slot>, o: nat)
    requires o + BLOCK <= imageBytes
  {
    var blocks := BlocksOf(file);
    var image := ImageOf(imageBytes, file);
    if o in blocks then
      && blocks[o] < |file|
      && file[blocks[o]].Good? && file[blocks[o]].record.kind.Write? && file[blocks[o]].record.offset == o
      && image[o..o + BLOCK] == file[blocks[o]].payload
    else image[o..o + BLOCK] == Zeros(BLOCK)
  }

  /** Two aligned blocks are the same or apart. */
  lemma {:induction false} Aligned(o: nat, p: nat)
    requires o % BLOCK == 0 && p % BLOCK == 0
    ensures o == p || o + BLOCK <= p || p + BLOCK <= o
  {
  }

  lemma {:induction false} AlignedRange(o: nat, p: nat, length: nat)
    requires o % BLOCK == 0 && p % BLOCK == 0 && length % BLOCK == 0
    ensures o < p ==> o + BLOCK <= p
    ensures p <= o < p + length ==> o + BLOCK <= p + length
  {
  }

  lemma {:induction false} BlocksRead(imageBytes: nat, file: seq<Slot>, o: nat)
    requires Written(imageBytes, file) && o % BLOCK == 0 && o + BLOCK <= imageBytes
    ensures Reads(imageBytes, file, o)
    decreases |file|
  {
    if file != [] {
      var n := |file| - 1;
      WrittenPrefix(imageBytes, file, n);
      BlocksRead(imageBytes, file[..n], o);
      assert Follows(imageBytes, Count(file[..n]), file[n]);
      BlockStep(imageBytes, file, o);
    }
  }

  lemma {:induction false} BlockStep(imageBytes: nat, file: seq<Slot>, o: nat)
    requires |file| > 0 && o % BLOCK == 0 && o + BLOCK <= imageBytes
    requires Reads(imageBytes, file[..|file| - 1], o)
    requires Follows(imageBytes, Count(file[..|file| - 1]), file[|file| - 1])
    ensures Reads(imageBytes, file, o)
  {
    var n := |file| - 1;
    var before := ImageOf(imageBytes, file[..n]);
    var after := ImageOf(imageBytes, file);
    var r := file[n].record;
    match r.kind
    case Fence =>
    case Write =>
      Aligned(o, r.offset);
      if o == r.offset {
        assert after[o..o + BLOCK] == file[n].payload;
      } else {
        assert after[o..o + BLOCK] == before[o..o + BLOCK];
      }
    case Zero =>
      AlignedRange(o, r.offset, r.length);
      if r.offset <= o < r.offset + r.length {
        assert after[o..o + BLOCK] == Zeros(BLOCK);
      } else {
        assert after[o..o + BLOCK] == before[o..o + BLOCK];
      }
  }
}
