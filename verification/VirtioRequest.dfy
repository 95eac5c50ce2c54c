/**
 * Decoding a virtio block request from scattered descriptors. What is decoded
 * is a function of the byte stream the chain lays out, per section 2.7.4
 * (Message Framing) and section 5.2.6 (Device Operation) of Virtio 1.2.
 */
module VirtioRequest {
  import opened Units

  type byte = x: int | 0 <= x < 256

  const SECTOR: nat := 512
  const DEVICE_ID_BYTES: nat := 20
  const USIZE_MAX: nat := U64_MAX
  const T_IN: nat := 0
  const T_OUT: nat := 1
  const T_FLUSH: nat := 4
  const T_GET_ID: nat := 8
  const T_DISCARD: nat := 11
  const T_WRITE_ZEROES: nat := 13

  /** Guest memory: the byte at each mapped address, and which may be written. */
  datatype Mem = Mem(bytes: map<nat, byte>, writable: set<nat>) {
    predicate Allows(a: nat, write: bool) { a <= U64_MAX && a in bytes && (write ==> a in writable) }
  }

  datatype Segment = Segment(addr: nat, len: nat, writable: bool)

  /** One byte of a chain. */
  datatype Cell = Cell(addr: nat, writable: bool)

  function Cells(s: Segment): (c: seq<Cell>)
    ensures |c| == s.len
  {
    seq(s.len, i requires 0 <= i < s.len => Cell(s.addr + i, s.writable))
  }

  function Stream(segments: seq<Segment>): seq<Cell> {
    if segments == [] then [] else Cells(segments[0]) + Stream(segments[1..])
  }

  datatype ZeroKind = Zero | ZeroUnmap | Discard

  datatype Request =
    | Read(status: nat, offset: nat, len: nat, data: seq<Segment>)
    | Write(status: nat, offset: nat, len: nat, data: seq<Segment>)
    | ZeroRange(status: nat, offset: nat, len: nat, kind: ZeroKind)
    | Flush(status: nat)
    | GetId(status: nat, data: seq<Segment>)
    | Unsupported(status: nat)

  // ----- the same, read off the stream ---------------------------------------

  /** A decoded request, its data as stream bytes. */
  datatype Meaning =
    | MRead(status: nat, offset: nat, data: seq<Cell>)
    | MWrite(status: nat, offset: nat, data: seq<Cell>)
    | MZero(status: nat, offset: nat, len: nat, kind: ZeroKind)
    | MFlush(status: nat)
    | MGetId(status: nat, data: seq<Cell>)
    | MUnsupported(status: nat)

  function MeaningOf(r: Request): Meaning {
    match r
    case Read(s, o, _, d) => MRead(s, o, Stream(d))
    case Write(s, o, _, d) => MWrite(s, o, Stream(d))
    case ZeroRange(s, o, l, k) => MZero(s, o, l, k)
    case Flush(s) => MFlush(s)
    case GetId(s, d) => MGetId(s, Stream(d))
    case Unsupported(s) => MUnsupported(s)
  }

  /** Little-endian. */
  function LE(bytes: seq<byte>): nat {
    if bytes == [] then 0 else bytes[0] + 256 * LE(bytes[1..])
  }

  function Bytes(mem: Mem, cells: seq<Cell>): (b: seq<byte>)
    requires forall i | 0 <= i < |cells| :: cells[i].addr in mem.bytes
    ensures |b| == |cells|
  {
    seq(|cells|, i requires 0 <= i < |cells| => mem.bytes[cells[i].addr])
  }

  /** The last byte is the status byte and must take a write. */
  predicate StatusOk(mem: Mem, cells: seq<Cell>) {
    cells != [] && cells[|cells| - 1].writable && mem.Allows(cells[|cells| - 1].addr, true)
  }

  /** Readable bytes come before writable ones, and all are in guest memory. */
  ghost predicate Framed(mem: Mem, cells: seq<Cell>) {
    && (forall i, j | 0 <= i < j < |cells| :: cells[i].writable ==> cells[j].writable)
    && (forall i | 0 <= i < |cells| :: mem.Allows(cells[i].addr, cells[i].writable))
  }

  ghost predicate Accepts(mem: Mem, cells: seq<Cell>) {
    && StatusOk(mem, cells)
    && Framed(mem, cells)
    && 17 <= |cells| <= USIZE_MAX && |cells| - 17 <= MAX_REQUEST
    && (forall i | 0 <= i < 16 :: !cells[i].writable)
  }

  /** The request a stream says, or nothing if it must be refused. */
  ghost function Decode(mem: Mem, cells: seq<Cell>, capacity: nat): Option<Meaning> {
    if !Accepts(mem, cells) then None else
    var header := Bytes(mem, cells[..16]);
    Typed(mem, cells[|cells| - 1].addr, LE(header[..4]), LE(header[8..]), cells[16..|cells| - 1], capacity)
  }

  /** By type, given the header's sector and the payload bytes. */
  function Typed(mem: Mem, status: nat, kind: nat, sector: nat, data: seq<Cell>, capacity: nat): Option<Meaning>
    requires forall i | 0 <= i < |data| :: data[i].addr in mem.bytes
  {
    if kind == T_DISCARD || kind == T_WRITE_ZEROES then Zeroing(mem, status, kind, data, capacity)
    else if kind == T_IN || kind == T_OUT then
      if sector * SECTOR > U64_MAX || |data| == 0 || |data| % BLOCK != 0 || sector * SECTOR % BLOCK != 0
         || sector * SECTOR + |data| > U64_MAX || sector * SECTOR + |data| > capacity
         || (exists i | 0 <= i < |data| :: data[i].writable != (kind == T_IN))
      then None
      else Some(if kind == T_IN then MRead(status, sector * SECTOR, data) else MWrite(status, sector * SECTOR, data))
    else if kind == T_FLUSH then (if |data| == 0 then Some(MFlush(status)) else None)
    else if kind == T_GET_ID then
      if |data| == DEVICE_ID_BYTES &&
        (forall i | 0 <= i < |data| :: data[i].writable) then Some(MGetId(status, data)) else None
    else Some(MUnsupported(status))
  }

  /** The one range of a DISCARD or WRITE_ZEROES; none at all means an empty one. */
  function Zeroing(mem: Mem, status: nat, kind: nat, data: seq<Cell>, capacity: nat): Option<Meaning>
    requires forall i | 0 <= i < |data| :: data[i].addr in mem.bytes
  {
    if (|data| != 0 && |data| != 16) || (exists i | 0 <= i < |data| :: data[i].writable) then None else
    var range := if data == [] then Blank(16) else Bytes(mem, data);
    Ranged(status, kind, range, capacity)
  }

  function Blank(n: nat): (b: seq<byte>)
    ensures |b| == n
  {
    seq(n, _ => 0)
  }

  function Ranged(status: nat, kind: nat, range: seq<byte>, capacity: nat): Option<Meaning>
    requires |range| == 16
  {
    var flags := LE(range[12..]);
    if flags > 1 || (kind == T_DISCARD && flags != 0) then Some(MUnsupported(status)) else
    var offset := LE(range[..8]) * SECTOR;
    var len := LE(range[8..12]) * SECTOR;
    if offset > U64_MAX || len > MAX_REQUEST || offset % BLOCK != 0 || len % BLOCK != 0
       || offset + len > U64_MAX || offset + len > capacity
    then None
    else Some(MZero(status, offset, len, if kind == T_DISCARD then Discard else if flags == 1 then ZeroUnmap else Zero))
  }

  // ----- only the stream matters ---------------------------------------------

  lemma {:induction false} StreamConcat(a: seq<Segment>, b: seq<Segment>)
    ensures Stream(a + b) == Stream(a) + Stream(b)
    decreases |a|
  {
    if a == [] {
      assert a + b == b;
    } else {
      StreamConcat(a[1..], b);
      assert (a + b)[1..] == a[1..] + b;
    }
  }

  lemma {:induction false} StreamOne(s: Segment)
    ensures Stream([s]) == Cells(s)
  {
    assert [s][1..] == [];
  }

  /** Splitting a descriptor anywhere leaves the stream, and so the decoding, alone. */
  lemma {:induction false} SplitUnseen(mem: Mem, a: seq<Segment>, s: Segment, b: seq<Segment>, k: nat, capacity: nat)
    requires k <= s.len
    ensures var split := a + [Segment(s.addr, k, s.writable), Segment(s.addr + k, s.len - k, s.writable)] + b;
      Stream(split) == Stream(a + [s] + b) &&
        Decode(mem, Stream(split), capacity) == Decode(mem, Stream(a + [s] + b), capacity)
  {
    hide Decode;
    var u, v := Segment(s.addr, k, s.writable), Segment(s.addr + k, s.len - k, s.writable);
    StreamConcat([u], [v]);
    StreamOne(u);
    StreamOne(v);
    StreamOne(s);
    assert [u] + [v] == [u, v];
    assert Cells(u) + Cells(v) == Cells(s);
    StreamConcat(a, [u, v]);
    StreamConcat(a + [u, v], b);
    StreamConcat(a, [s]);
    StreamConcat(a + [s], b);
  }

  /** An empty descriptor leaves it alone too. */
  lemma {:induction false} EmptyUnseen(mem: Mem, a: seq<Segment>, s: Segment, b: seq<Segment>, capacity: nat)
    requires s.len == 0
    ensures Stream(a + [s] + b) == Stream(a + b) &&
      Decode(mem, Stream(a + [s] + b), capacity) == Decode(mem, Stream(a + b), capacity)
  {
    hide Decode;
    StreamOne(s);
    StreamConcat(a, [s]);
    StreamConcat(a + [s], b);
    StreamConcat(a, b);
  }

  // ----- the parser ----------------------------------------------------------

  predicate NoneEmpty(segments: seq<Segment>) {
    forall i | 0 <= i < |segments| :: segments[i].len != 0
  }

  lemma {:induction false} StreamLast(segments: seq<Segment>, n: nat)
    requires n < |segments|
    ensures Stream(segments[..n + 1]) == Stream(segments[..n]) + Cells(segments[n])
  {
    assert segments[..n + 1] == segments[..n] + [segments[n]];
    StreamConcat(segments[..n], [segments[n]]);
    StreamOne(segments[n]);
  }

  lemma {:induction false} StreamNone(segments: seq<Segment>)
    ensures Stream(segments[..0]) == []
  {
    assert segments[..0] == [];
  }

  lemma {:induction false} StreamAll(segments: seq<Segment>)
    ensures segments[..|segments|] == segments
  {
  }

  /** Drop empty descriptors. */
  method Retain(segments: seq<Segment>) returns (kept: seq<Segment>)
    ensures Stream(kept) == Stream(segments) && NoneEmpty(kept)
  {
    kept := [];
    var i := 0;
    StreamNone(segments);
    while i < |segments|
      invariant i <= |segments| && Stream(kept) == Stream(segments[..i]) && NoneEmpty(kept)
    {
      StreamLast(segments, i);
      StreamConcat(kept, [segments[i]]);
      StreamOne(segments[i]);
      if segments[i].len != 0 {
        kept := kept + [segments[i]];
      }
      i := i + 1;
    }
    StreamAll(segments);
  }

  /** The address of the chain's last byte, if it can take the status. */
  method FindStatus(mem: Mem, segments: seq<Segment>) returns (status: Option<nat>)
    ensures status == if StatusOk(mem, Stream(segments)) then Some(Stream(segments)[|Stream(segments)| - 1].addr)
      else None
  {
    var i := |segments|;
    StreamAll(segments);
    while i > 0
      invariant 0 <= i <= |segments| && Stream(segments[..i]) == Stream(segments)
    {
      StreamLast(segments, i - 1);
      var last := segments[i - 1];
      if last.len != 0 {
        var a := last.addr + (last.len - 1);
        assert Stream(segments)[|Stream(segments)| - 1] == Cell(a, last.writable);
        return if last.writable && mem.Allows(a, true) then Some(a) else None;
      }
      i := i - 1;
    }
    StreamNone(segments);
    status := None;
  }

  /** Direction, memory bounds and total length, descriptor by descriptor. */
  method Validate(mem: Mem, segments: seq<Segment>) returns (ok: bool, total: nat)
    requires NoneEmpty(segments)
    ensures ok <==> Framed(mem, Stream(segments)) && |Stream(segments)| <= USIZE_MAX
    ensures ok ==> total == |Stream(segments)|
  {
    hide Stream;
    var seen := false;
    total := 0;
    var i := 0;
    StreamNone(segments);
    StreamAll(segments);
    while i < |segments|
      invariant i <= |segments| && total == |Stream(segments[..i])| <= USIZE_MAX
      invariant Framed(mem, Stream(segments[..i]))
      invariant seen <==> exists k | 0 <= k < |Stream(segments[..i])| :: Stream(segments[..i])[k].writable
    {
      StreamLast(segments, i);
      StreamPrefix(segments, i + 1);
      var s := segments[i];
      FramedMore(mem, Stream(segments[..i]), s, Stream(segments));
      if seen && !s.writable { return false, 0; }
      seen := seen || s.writable;
      if !InMemory(mem, s) { return false, 0; }
      if total + s.len > USIZE_MAX { return false, 0; }
      total := total + s.len;
      i := i + 1;
    }
    ok := true;
  }

  /** `check_range` with the access the descriptor asks for. */
  predicate InMemory(mem: Mem, s: Segment) {
    forall a | s.addr <= a < s.addr + s.len :: mem.Allows(a, s.writable)
  }

  lemma {:induction false} StreamPrefix(segments: seq<Segment>, n: nat)
    requires n <= |segments|
    ensures Stream(segments[..n]) <= Stream(segments)
  {
    assert segments == segments[..n] + segments[n..];
    StreamConcat(segments[..n], segments[n..]);
  }

  /** One more descriptor keeps a stream in order just when it passes the checks. */
  lemma {:induction false} FramedMore(mem: Mem, before: seq<Cell>, s: Segment, all: seq<Cell>)
    requires Framed(mem, before) && s.len != 0 && before + Cells(s) <= all
    ensures !InMemory(mem, s) ==> !Framed(mem, all)
    ensures (exists k | 0 <= k < |before| :: before[k].writable) && !s.writable ==> !Framed(mem, all)
    ensures InMemory(mem, s) && (s.writable || !(exists k | 0 <= k < |before| :: before[k].writable)) ==>
      Framed(mem, before + Cells(s))
    ensures (exists k | 0 <= k < |before + Cells(s)| :: (before + Cells(s))[k].writable) <==>
            (exists k | 0 <= k < |before| :: before[k].writable) || s.writable
  {
    var n := |before|;
    var both := before + Cells(s);
    assert forall k | 0 <= k < |both| :: all[k] == both[k];
    if !InMemory(mem, s) {
      var a :| s.addr <= a < s.addr + s.len && !mem.Allows(a, s.writable);
      assert all[n + (a - s.addr)] == Cell(a, s.writable);
    }
    if k :| 0 <= k < n && before[k].writable {
      assert both[k].writable;
      if !s.writable {
        assert all[k].writable && !all[n].writable;
      }
    }
    if s.writable { assert both[n].writable; }
    if InMemory(mem, s) {
      forall i | 0 <= i < |both| ensures mem.Allows(both[i].addr, both[i].writable) {
        if i >= n { assert both[i] == Cell(s.addr + (i - n), s.writable); }
      }
    }
  }

  /** A descriptor without its first `n` bytes. */
  function Skip(s: Segment, n: nat): Segment
    requires n <= s.len
  {
    Segment(s.addr + n, s.len - n, s.writable)
  }

  lemma {:induction false} SkipCells(s: Segment, n: nat)
    requires n <= s.len
    ensures Cells(s) == Cells(Segment(s.addr, n, s.writable)) + Cells(Skip(s, n))
  {
  }

  /** The header is copied out and its bytes trimmed off the front. */
  method TakeHeader(mem: Mem, segments: seq<Segment>) returns (res: Result<(seq<byte>, seq<Segment>), string>)
    requires NoneEmpty(segments) && 16 <= |Stream(segments)| && Framed(mem, Stream(segments))
    ensures res.Ok? <==> forall i | 0 <= i < 16 :: !Stream(segments)[i].writable
    ensures res.Ok? ==>
      res.value.0 == Bytes(mem, Stream(segments)[..16]) &&
      Stream(res.value.1) == Stream(segments)[16..]
    ensures res.Ok? ==> segments != [] && (segments[|segments| - 1].writable ==>
              res.value.1 != [] && res.value.1[|res.value.1| - 1] == segments[|segments| - 1])
  {
    hide *;
    var rest := segments;
    var header: seq<byte> := [];
    var i := 0;
    TrimmingStart(mem, segments);
    while i < |rest| && |header| < 16
      invariant i <= |rest| && |header| <= 16 && Trimming(mem, segments, rest, i, header)
    {
      TrimmingHead(mem, segments, rest, i, header);
      var s := rest[i];
      if s.writable { return Err("request header is not entirely readable"); }
      var count := if s.len < 16 - |header| then s.len else 16 - |header|;
      TrimmingStep(mem, segments, rest, i, header, count);
      header := header + Bytes(mem, Cells(Segment(s.addr, count, false)));
      rest := rest[i := Skip(s, count)];
      i := i + 1;
    }
    TrimmingEnd(mem, segments, rest, i, header);
    res := Ok((header, rest));
  }

  /** The first `i` descriptors have been used up, or the header is complete. */
  ghost predicate Trimming(mem: Mem, segments: seq<Segment>, rest: seq<Segment>, i: nat, header: seq<byte>) {
    var cells := Stream(segments);
    && i <= |rest| == |segments| && |header| <= 16 <= |cells| && NoneEmpty(segments) && segments != []
    && (forall k | 0 <= k < |cells| :: cells[k].addr in mem.bytes)
    && (forall k | i <= k < |rest| :: rest[k] == segments[k])
    && (segments[|segments| - 1].writable ==> i < |segments|)
    && (|header| < 16 ==> |Stream(segments[..i])| == |header| && Stream(rest[..i]) == [])
    && (forall k | 0 <= k < |header| :: !cells[k].writable)
    && header == Bytes(mem, cells[..|header|])
    && Stream(rest) == cells[|header|..]
  }

  lemma {:induction false} TrimmingStart(mem: Mem, segments: seq<Segment>)
    requires NoneEmpty(segments) && 16 <= |Stream(segments)| && Framed(mem, Stream(segments))
    ensures Trimming(mem, segments, segments, 0, [])
  {
    StreamNone(segments);
    FramedMapped(mem, Stream(segments));
    hide Framed;
    if segments == [] { assert false; }
  }

  lemma {:induction false} TrimmingHead(mem: Mem, segments: seq<Segment>, rest: seq<Segment>, i: nat, header: seq<byte>)
    requires Trimming(mem, segments, rest, i, header) && i < |rest| && |header| < 16
    ensures |Stream(segments)| >= 16 && |header| + rest[i].len <= |Stream(segments)| && rest[i].len > 0
    ensures forall k | |header| <= k < |header| + rest[i].len ::
      Stream(segments)[k] == Cell(rest[i].addr + (k - |header|), rest[i].writable)
    ensures rest[i].writable ==> Stream(segments)[|header|].writable
    ensures forall c |
      c in Cells(Segment(rest[i].addr, if rest[i].len < 16 - |header| then rest[i].len else 16 - |header|, false)) ::
      c.addr in mem.bytes
  {
    var cells := Stream(segments);
    StreamLast(segments, i);
    StreamPrefix(segments, i + 1);
    hide Stream;
    var h := |header|;
    var s := rest[i];
    assert Stream(segments[..i + 1]) == Stream(segments[..i]) + Cells(s);
    assert cells[h..h + s.len] == Cells(s);
    FirstCell(cells, h, s);
    var count := if s.len < 16 - h then s.len else 16 - h;
    forall c | c in Cells(Segment(s.addr, count, false)) ensures c.addr in mem.bytes {
      var k :| 0 <= k < count && c == Cells(Segment(s.addr, count, false))[k];
      assert cells[h + k].addr == c.addr;
    }
  }

  lemma {:induction false} TrimmingStep(mem: Mem, segments: seq<Segment>, rest: seq<Segment>, i: nat,
      header: seq<byte>, count: nat)
    requires Trimming(mem, segments, rest, i, header) && i < |rest| && |header| < 16 && !rest[i].writable
    requires count == if rest[i].len < 16 - |header| then rest[i].len else 16 - |header|
    requires forall c | c in Cells(Segment(rest[i].addr, count, false)) :: c.addr in mem.bytes
    ensures Trimming(mem, segments, rest[i := Skip(rest[i], count)], i + 1,
      header + Bytes(mem, Cells(Segment(rest[i].addr, count, false))))
  {
    TrimmingHead(mem, segments, rest, i, header);
    HeaderCopy(mem, Stream(segments), |header|, rest[i], count);
    TrimFront(rest, i, count);
    StreamLast(segments, i);
    hide Stream;
  }

  lemma {:induction false} TrimmingEnd(mem: Mem, segments: seq<Segment>, rest: seq<Segment>, i: nat, header: seq<byte>)
    requires Trimming(mem, segments, rest, i, header) && (i == |rest| || |header| == 16)
    ensures |header| == 16 && |Stream(segments)| >= 16 && forall k | 0 <= k < 16 :: !Stream(segments)[k].writable
    ensures forall k | 0 <= k < 16 :: Stream(segments)[..16][k].addr in mem.bytes
    ensures header == Bytes(mem, Stream(segments)[..16]) && Stream(rest) == Stream(segments)[16..]
    ensures segments != [] &&
      (segments[|segments| - 1].writable ==> rest != [] && rest[|rest| - 1] == segments[|segments| - 1])
  {
    StreamAll(segments);
    hide Stream;
  }

  lemma {:induction false} FramedMapped(mem: Mem, cells: seq<Cell>)
    requires Framed(mem, cells)
    ensures forall i | 0 <= i < |cells| :: cells[i].addr in mem.bytes
  {
  }

  lemma {:induction false} FirstCell(cells: seq<Cell>, h: nat, s: Segment)
    requires h + s.len <= |cells| && s.len != 0 && Cells(s) == cells[h..h + s.len]
    ensures h < |cells| && cells[h] == Cell(s.addr, s.writable)
    ensures forall k | h <= k < h + s.len :: k < |cells| && cells[k] == Cell(s.addr + (k - h), s.writable)
  {
    forall k | h <= k < h + s.len ensures k < |cells| && cells[k] == Cell(s.addr + (k - h), s.writable) {
      assert cells[h..h + s.len][k - h] == Cells(s)[k - h];
    }
  }

  lemma {:induction false} HeaderCopy(mem: Mem, cells: seq<Cell>, h: nat, s: Segment, count: nat)
    requires h + s.len <= |cells| && count <= s.len && !s.writable
    requires forall k | h <= k < h + s.len :: cells[k] == Cell(s.addr + (k - h), s.writable)
    requires forall i | 0 <= i < |cells| :: cells[i].addr in mem.bytes
    requires forall c | c in Cells(Segment(s.addr, count, false)) :: c.addr in mem.bytes
    ensures Bytes(mem, cells[..h]) + Bytes(mem, Cells(Segment(s.addr, count, false))) == Bytes(mem, cells[..h + count])
    ensures forall k | h <= k < h + count :: !cells[k].writable
  {
    var piece := Cells(Segment(s.addr, count, false));
    assert cells[..h + count] == cells[..h] + piece;
  }

  /** Trimming `count` bytes off a descriptor that all before it are used up. */
  lemma {:induction false} TrimFront(rest: seq<Segment>, i: nat, count: nat)
    requires i < |rest| && Stream(rest[..i]) == [] && count <= rest[i].len
    ensures count <= |Stream(rest)|
    ensures Stream(rest[i := Skip(rest[i], count)]) == Stream(rest)[count..]
    ensures count == rest[i].len ==> Stream(rest[i := Skip(rest[i], count)][..i + 1]) == []
  {
    var s := rest[i];
    var after := rest[i := Skip(s, count)];
    assert rest == rest[..i] + [s] + rest[i + 1..] && after == rest[..i] + [Skip(s, count)] + rest[i + 1..];
    StreamThree(rest[..i], s, rest[i + 1..]);
    StreamThree(rest[..i], Skip(s, count), rest[i + 1..]);
    SkipCells(s, count);
    StreamLast(after, i);
    assert after[..i] == rest[..i];
  }

  lemma {:induction false} StreamThree(a: seq<Segment>, s: Segment, b: seq<Segment>)
    ensures Stream(a + [s] + b) == Stream(a) + Cells(s) + Stream(b)
  {
    StreamConcat(a, [s]);
    StreamConcat(a + [s], b);
    StreamOne(s);
  }

  /** The status byte comes off the end. */
  method DropStatus(segments: seq<Segment>) returns (rest: seq<Segment>)
    requires segments != [] && segments[|segments| - 1].len > 0
    ensures |Stream(segments)| > 0 && Stream(rest) == Stream(segments)[..|Stream(segments)| - 1] && NoneEmpty(rest)
  {
    var n := |segments| - 1;
    var last := segments[n];
    var trimmed := segments[n := Segment(last.addr, last.len - 1, last.writable)];
    ShortStream(segments);
    hide Stream;
    rest := Retain(trimmed);
  }

  lemma {:induction false} ShortStream(segments: seq<Segment>)
    requires segments != [] && segments[|segments| - 1].len > 0
    ensures |Stream(segments)| > 0
    ensures var n := |segments| - 1; var last := segments[n];
      Stream(segments[n := Segment(last.addr, last.len - 1, last.writable)]) ==
        Stream(segments)[..|Stream(segments)| - 1]
  {
    var n := |segments| - 1;
    var last := segments[n];
    var short := Segment(last.addr, last.len - 1, last.writable);
    var trimmed := segments[n := short];
    StreamAll(segments);
    StreamAll(trimmed);
    StreamLast(segments, n);
    StreamLast(trimmed, n);
    assert trimmed[..n] == segments[..n];
    assert Cells(short) == Cells(last)[..last.len - 1];
  }

  /** The bytes of a range, gathered from its descriptors. */
  method CopyRange(mem: Mem, segments: seq<Segment>) returns (range: seq<byte>)
    requires |Stream(segments)| == 0 || |Stream(segments)| == 16
    requires forall c | c in Stream(segments) :: c.addr in mem.bytes
    ensures |range| == 16 && range == if Stream(segments) == [] then Blank(16) else Bytes(mem, Stream(segments))
  {
    hide Stream, Blank, Cells, Bytes;
    range := Blank(16);
    var copied := 0;
    var i := 0;
    StreamNone(segments);
    StreamAll(segments);
    while i < |segments|
      invariant i <= |segments| && |range| == 16 && copied == |Stream(segments[..i])| <= |Stream(segments)|
      invariant forall c | c in Stream(segments[..i]) :: c.addr in mem.bytes
      invariant range == Bytes(mem, Stream(segments[..i])) + Blank(16)[copied..]
    {
      var s := segments[i];
      StreamLast(segments, i);
      StreamPrefix(segments, i + 1);
      MappedPrefix(mem, Stream(segments[..i + 1]), Stream(segments));
      CopyStep(mem, Stream(segments[..i]), Cells(s), range, copied);
      // never past the end: the lengths sum to at most sixteen
      range := range[..copied] + Bytes(mem, Cells(s)) + range[copied + s.len..];
      copied := copied + s.len;
      i := i + 1;
    }
  }

  lemma {:induction false} MappedPrefix(mem: Mem, part: seq<Cell>, all: seq<Cell>)
    requires part <= all && forall c | c in all :: c.addr in mem.bytes
    ensures forall c | c in part :: c.addr in mem.bytes
  {
    assert forall c | c in part :: c in all;
  }

  lemma {:induction false} CopyStep(mem: Mem, before: seq<Cell>, piece: seq<Cell>, range: seq<byte>, copied: nat)
    requires copied == |before| && |range| == 16 && copied + |piece| <= 16
    requires forall c | c in before + piece :: c.addr in mem.bytes
    requires forall c | c in before :: c.addr in mem.bytes
    requires range == Bytes(mem, before) + Blank(16)[copied..]
    ensures forall c | c in piece :: c.addr in mem.bytes
    ensures range[..copied] + Bytes(mem, piece) + range[copied + |piece|..] == Bytes(mem, before + piece) +
      Blank(16)[copied + |piece|..]
  {
    assert forall c | c in piece :: c in before + piece;
    assert Bytes(mem, before + piece) == Bytes(mem, before) + Bytes(mem, piece);
  }

  predicate Same(r: Result<Request, string>, m: Option<Meaning>) {
    match r
    case Ok(q) => m == Some(MeaningOf(q)) && Lengths(q)
    case Err(_) => m.None?
  }

  /** A request's length field is what its data descriptors add up to. */
  predicate Lengths(q: Request) {
    q.Read? || q.Write? ==> q.len == |Stream(q.data)| && NoneEmpty(q.data)
  }

  /** Whatever the descriptors, the parser says what the stream says. */
  method Parse(mem: Mem, descriptors: seq<Segment>, capacity: nat) returns (res: Result<Request, string>)
    ensures Same(res, Decode(mem, Stream(descriptors), capacity))
  {
    hide Stream, Framed, StatusOk, Decode, Typed, LE, Bytes, NoneEmpty, MeaningOf, Lengths;
    var segments := Retain(descriptors);
    ghost var cells := Stream(segments);
    var status := FindStatus(mem, segments);
    DecodeRefuses(mem, cells, capacity);
    if status.None? { return Err("missing writable status byte"); }
    var ok, total := Validate(mem, segments);
    if !ok { return Err("descriptor order, memory or length"); }
    if total < 17 { return Err("missing request header"); }
    var len := total - 17;
    if len > MAX_REQUEST { return Err("request exceeds size limit"); }
    var taken := TakeHeader(mem, segments);
    if taken.Err? { return Err(taken.error); }
    var (header, trimmed) := taken.value;
    LastWritable(mem, segments);
    var data := DropStatus(trimmed);
    assert Stream(data) == cells[16..|cells| - 1];
    DecodeTyped(mem, cells, capacity);
    PayloadMapped(mem, cells);
    res := Dispatch(mem, status.value, LE(header[..4]), LE(header[8..]), data, len, capacity);
  }

  lemma {:induction false} DecodeRefuses(mem: Mem, cells: seq<Cell>, capacity: nat)
    ensures (!StatusOk(mem, cells) || !Framed(mem, cells) || |cells| > USIZE_MAX || |cells| < 17 ||
             |cells| - 17 > MAX_REQUEST) ==>
              Decode(mem, cells, capacity).None?
    ensures |cells| >= 17 && !(forall i | 0 <= i < 16 :: !cells[i].writable) ==> Decode(mem, cells, capacity).None?
  {
    hide Framed, StatusOk, Typed;
  }

  lemma {:induction false} PayloadMapped(mem: Mem, cells: seq<Cell>)
    requires Framed(mem, cells) && |cells| >= 17
    ensures forall c | c in cells[16..|cells| - 1] :: c.addr in mem.bytes
  {
    forall c | c in cells[16..|cells| - 1] ensures c.addr in mem.bytes {
      var k :| 0 <= k < |cells| - 17 && cells[16..|cells| - 1][k] == c;
      assert cells[k + 16] == c;
    }
  }

  lemma {:induction false} DecodeTyped(mem: Mem, cells: seq<Cell>, capacity: nat)
    requires Accepts(mem, cells)
    ensures forall c | c in cells[..16] :: c.addr in mem.bytes
    ensures forall c | c in cells[16..|cells| - 1] :: c.addr in mem.bytes
    ensures var header := Bytes(mem, cells[..16]);
      Decode(mem, cells, capacity) ==
      Typed(mem, cells[|cells| - 1].addr, LE(header[..4]), LE(header[8..]), cells[16..|cells| - 1], capacity)
  {
    hide Typed, LE;
    PayloadMapped(mem, cells);
  }

  /** The last descriptor of an accepted chain is writable, so the header left it alone. */
  lemma {:induction false} LastWritable(mem: Mem, segments: seq<Segment>)
    requires NoneEmpty(segments) && StatusOk(mem, Stream(segments))
    ensures segments != [] && segments[|segments| - 1].writable && segments[|segments| - 1].len > 0
  {
    if segments != [] {
      var n := |segments| - 1;
      StreamAll(segments);
      StreamLast(segments, n);
      assert Stream(segments)[|Stream(segments)| - 1] ==
        Cell(segments[n].addr + (segments[n].len - 1), segments[n].writable);
    }
  }

  /** By request type. */
  method Dispatch(mem: Mem, status: nat, kind: nat, sector: nat, data: seq<Segment>, len: nat, capacity: nat)
    returns (res: Result<Request, string>)
    requires NoneEmpty(data) && len == |Stream(data)| && forall c | c in Stream(data) :: c.addr in mem.bytes
    ensures Same(res, Typed(mem, status, kind, sector, Stream(data), capacity))
  {
    hide Stream, NoneEmpty, Zeroing;
    if kind == T_DISCARD || kind == T_WRITE_ZEROES {
      res := ZeroOf(mem, status, kind, data, len, capacity);
      return;
    }
    if kind == T_IN || kind == T_OUT {
      var offset := sector * SECTOR;
      if offset > U64_MAX { return Err("sector overflow"); }
      var mixed := AnyOf(data, kind != T_IN);
      if len == 0 || len % BLOCK != 0 || offset % BLOCK != 0 || offset + len > U64_MAX || offset + len > capacity ||
        mixed {
        return Err("invalid data range, alignment, or direction");
      }
      return Ok(if kind == T_IN then Read(status, offset, len, data) else Write(status, offset, len, data));
    }
    if kind == T_FLUSH {
      return if len == 0 then Ok(Flush(status)) else Err("FLUSH has data descriptors");
    }
    if kind == T_GET_ID {
      var readable := AnyOf(data, false);
      if len == DEVICE_ID_BYTES && !readable { return Ok(GetId(status, data)); }
      return Err("invalid GET_ID buffer");
    }
    res := Ok(Unsupported(status));
  }

  /** Whether any descriptor, and so any byte, has this direction. */
  method AnyOf(data: seq<Segment>, writable: bool) returns (found: bool)
    requires NoneEmpty(data)
    ensures found <==> exists i | 0 <= i < |Stream(data)| :: Stream(data)[i].writable == writable
  {
    hide Stream;
    var i := 0;
    StreamNone(data);
    StreamAll(data);
    while i < |data|
      invariant i <= |data|
      invariant forall k | 0 <= k < |Stream(data[..i])| :: Stream(data[..i])[k].writable != writable
    {
      StreamLast(data, i);
      StreamPrefix(data, i + 1);
      if data[i].writable == writable {
        assert Stream(data)[|Stream(data[..i])|] == Stream(data[..i + 1])[|Stream(data[..i])|] == Cells(data[i])[0];
        return true;
      }
      i := i + 1;
    }
    found := false;
  }

  method ZeroOf(mem: Mem, status: nat, kind: nat, data: seq<Segment>, len: nat, capacity: nat)
      returns (res: Result<Request, string>)
    requires NoneEmpty(data) && len == |Stream(data)| && forall c | c in Stream(data) :: c.addr in mem.bytes
    ensures Same(res, Zeroing(mem, status, kind, Stream(data), capacity))
  {
    hide Stream, NoneEmpty, LE, Bytes, Blank;
    var writable := AnyOf(data, true);
    if (len != 0 && len != 16) || writable { return Err("zero/discard requires at most one readable range"); }
    var range := CopyRange(mem, data);
    var sector := LE(range[..8]);
    var sectors := LE(range[8..12]);
    var flags := LE(range[12..]);
    if flags > 1 || (kind == T_DISCARD && flags != 0) { return Ok(Unsupported(status)); }
    var offset := sector * SECTOR;
    if offset > U64_MAX { return Err("range sector overflow"); }
    var bytes := sectors * SECTOR;
    if bytes > MAX_REQUEST || offset % BLOCK != 0 || bytes % BLOCK != 0 || offset + bytes > U64_MAX ||
      offset + bytes > capacity {
      return Err("invalid zero/discard range, size or alignment");
    }
    res := Ok(ZeroRange(status, offset, bytes, if kind == T_DISCARD then Discard else if flags == 1 then ZeroUnmap
      else Zero));
  }

  // ----- the chain as the backend takes it -----------------------------------

  /** A request, one to answer with an error, or one that cannot be answered. */
  datatype Chain = Decoded(request: Request) | Invalid(status: nat) | Malformed

  /** `more` says the chain goes on past the descriptors taken from it. */
  method DecodeChain(mem: Mem, descriptors: seq<Segment>, more: bool, capacity: nat) returns (chain: Chain)
    ensures more ==> chain == Malformed
    ensures !more ==>
      var cells := Stream(descriptors);
      match chain
      case Decoded(r) => Decode(mem, cells, capacity) == Some(MeaningOf(r)) && Lengths(r)
      case Invalid(status) => Decode(mem, cells, capacity).None? && StatusOk(mem, cells) &&
        status == cells[|cells| - 1].addr
      case Malformed => Decode(mem, cells, capacity).None? && !StatusOk(mem, cells)
  {
    hide Stream, Decode, StatusOk, MeaningOf, Lengths;
    if more { return Malformed; }
    var status := FindStatus(mem, descriptors);
    var parsed := Parse(mem, descriptors, capacity);
    if parsed.Ok? { return Decoded(parsed.value); }
    chain := if status.Some? then Invalid(status.value) else Malformed;
  }
}
