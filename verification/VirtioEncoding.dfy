/**
 * The wire format from the driver's side: how a request is written into a
 * chain, per section 5.2.6 (Device Operation) of Virtio 1.2. Parsing any
 * scattering of it gives that request back, and whatever is not such a chain is
 * refused or found unsupported.
 */
module VirtioEncoding {
  import opened Units
  import opened VirtioRequest

  // ----- little-endian numbers -----------------------------------------------

  function Put32(n: nat): (b: seq<byte>)
    ensures |b| == 4
  {
    [n % 256, n / 256 % 256, n / 65536 % 256, n / 16777216 % 256]
  }

  function Put64(n: nat): (b: seq<byte>)
    ensures |b| == 8
  {
    Put32(n % 0x1_0000_0000) + Put32(n / 0x1_0000_0000)
  }

  lemma {:induction false} Four(b: seq<byte>)
    requires |b| == 4
    ensures var x: int, y: int, z: int, w: int := b[0], b[1], b[2], b[3];
      LE(b) == x + 256 * y + 65536 * z + 16777216 * w < 0x1_0000_0000
  {
    assert b[1..][1..] == b[2..] && b[2..][1..] == b[3..] && b[3..][1..] == [];
    var y: int, z: int, w: int := b[1], b[2], b[3];
    assert LE(b[3..]) == w;
    assert LE(b[2..]) == z + 256 * w;
    assert LE(b[1..]) == y + 256 * (z + 256 * w);
  }

  lemma {:induction false} Digits(a: nat, b: nat, c: nat, d: nat)
    requires a < 256 && b < 256 && c < 256 && d < 256
    ensures var n := a + 256 * b + 65536 * c + 16777216 * d;
      n % 256 == a && n / 256 % 256 == b && n / 65536 % 256 == c && n / 16777216 % 256 == d
  {
    var n := a + 256 * b + 65536 * c + 16777216 * d;
    assert n / 256 == b + 256 * c + 65536 * d;
    assert n / 65536 == c + 256 * d;
    assert n / 16777216 == d;
  }

  /** Writing a 32-bit number and reading it, and the other way round. */
  lemma {:induction false} Le32(n: nat)
    requires n < 0x1_0000_0000
    ensures LE(Put32(n)) == n
  {
    Four(Put32(n));
    assert n / 256 / 256 == n / 65536 && n / 65536 / 256 == n / 16777216;
  }

  lemma {:induction false} Read32(b: seq<byte>)
    requires |b| == 4
    ensures LE(b) < 0x1_0000_0000 && Put32(LE(b)) == b
  {
    Four(b);
    Digits(b[0], b[1], b[2], b[3]);
  }

  lemma {:induction false} Eight(b: seq<byte>)
    requires |b| == 8
    ensures LE(b) == LE(b[..4]) + 0x1_0000_0000 * LE(b[4..])
  {
    assert b[1..][1..] == b[2..] && b[2..][1..] == b[3..] && b[3..][1..] == b[4..];
    assert LE(b[3..]) == b[3] + 256 * LE(b[4..]);
    assert LE(b[2..]) == b[2] + 256 * LE(b[3..]);
    assert LE(b[1..]) == b[1] + 256 * LE(b[2..]);
    Four(b[..4]);
  }

  lemma {:induction false} Le64(n: nat)
    requires n < 0x1_0000_0000_0000_0000
    ensures LE(Put64(n)) == n
  {
    hide LE, Put32;
    var low, high := n % 0x1_0000_0000, n / 0x1_0000_0000;
    Eight(Put64(n));
    assert Put64(n)[..4] == Put32(low) && Put64(n)[4..] == Put32(high);
    Le32(low);
    Le32(high);
  }

  lemma {:induction false} Read64(b: seq<byte>)
    requires |b| == 8
    ensures LE(b) < 0x1_0000_0000_0000_0000 && Put64(LE(b)) == b
  {
    hide LE, Put32;
    Eight(b);
    Read32(b[..4]);
    Read32(b[4..]);
    assert b == b[..4] + b[4..];
  }

  // ----- the frame -----------------------------------------------------------

  /** Header, payload and status byte of a chain, whatever its descriptors. */
  datatype Message = Message(code: nat, reserved: nat, sector: nat, payload: seq<Cell>, status: nat)

  ghost predicate Mapped(mem: Mem, cells: seq<Cell>) {
    forall i | 0 <= i < |cells| ::
      && cells[i].addr <= 0xFFFF_FFFF_FFFF_FFFF && cells[i].addr in mem.bytes
      && (cells[i].writable ==> cells[i].addr in mem.writable)
  }

  /** A chain that carries `m`: sixteen readable bytes, the payload, a writable byte. */
  ghost predicate Carries(mem: Mem, cells: seq<Cell>, m: Message) {
    && m.code < 0x1_0000_0000 && m.reserved < 0x1_0000_0000 && m.sector < 0x1_0000_0000_0000_0000
    && |cells| == 16 + |m.payload| + 1 && |m.payload| <= 1048576
    && Mapped(mem, cells)
    && (forall i | 0 <= i < 16 :: !cells[i].writable)
    && Bytes(mem, cells[..16]) == Put32(m.code) + Put32(m.reserved) + Put64(m.sector)
    && cells[16..|cells| - 1] == m.payload && cells[|cells| - 1] == Cell(m.status, true)
    && (forall i, j | 0 <= i < j < |m.payload| :: m.payload[i].writable ==> m.payload[j].writable)
  }

  lemma {:induction false} CarriesParts(mem: Mem, cells: seq<Cell>, m: Message)
    requires Carries(mem, cells, m)
    ensures Accepts(mem, cells) && Mapped(mem, m.payload)
    ensures var h := Bytes(mem, cells[..16]); LE(h[..4]) == m.code && LE(h[8..]) == m.sector
  {
    hide LE, Put32, Put64;
    var h := Bytes(mem, cells[..16]);
    assert h[..4] == Put32(m.code) && h[8..] == Put64(m.sector);
    Le32(m.code);
    Le64(m.sector);
    forall i | 0 <= i < |m.payload| ensures m.payload[i] == cells[16 + i] {
    }
    CarriesFramed(mem, cells, m);
  }

  lemma {:induction false} CarriesFramed(mem: Mem, cells: seq<Cell>, m: Message)
    requires Carries(mem, cells, m)
    ensures Framed(mem, cells)
  {
    hide Put32, Put64, Bytes;
    forall i, j | 0 <= i < j < |cells| && cells[i].writable ensures cells[j].writable {
      if j < |cells| - 1 {
        assert cells[i] == m.payload[i - 16] && cells[j] == m.payload[j - 16];
      }
    }
  }

  /** The message an accepted chain carries. */
  ghost function MessageOf(mem: Mem, cells: seq<Cell>): Message
    requires Accepts(mem, cells)
  {
    var h := Bytes(mem, cells[..16]);
    Message(LE(h[..4]), LE(h[4..8]), LE(h[8..]), cells[16..|cells| - 1], cells[|cells| - 1].addr)
  }

  lemma {:induction false} AcceptedCarries(mem: Mem, cells: seq<Cell>)
    requires Accepts(mem, cells)
    ensures Carries(mem, cells, MessageOf(mem, cells))
  {
    hide LE, Put32, Put64;
    var h := Bytes(mem, cells[..16]);
    Read32(h[..4]);
    Read32(h[4..8]);
    Read64(h[8..]);
    assert h == h[..4] + h[4..8] + h[8..];
    var p := cells[16..|cells| - 1];
    forall i, j | 0 <= i < j < |p| && p[i].writable ensures p[j].writable {
      assert p[i] == cells[16 + i] && p[j] == cells[16 + j];
    }
  }

  // ----- requests as a driver writes them ------------------------------------

  datatype Ask =
    | ReadAt(offset: nat, len: nat) | WriteAt(offset: nat, len: nat)
    | ZeroAt(offset: nat, len: nat, unmap: bool) | DiscardAt(offset: nat, len: nat)
    | FlushAll | AskId

  /** Whole blocks within the device. */
  predicate InDevice(offset: nat, len: nat, capacity: nat) {
    && offset % 4096 == 0 && len % 4096 == 0 && len <= 1048576
    && offset + len <= capacity && offset + len <= 0xFFFF_FFFF_FFFF_FFFF
  }

  predicate All(cells: seq<Cell>, writable: bool) {
    forall i | 0 <= i < |cells| :: cells[i].writable == writable
  }

  /** The sixteen bytes of a range; a driver may leave an empty one out. */
  ghost predicate RangeOf(mem: Mem, payload: seq<Cell>, offset: nat, len: nat, flags: nat)
    requires Mapped(mem, payload)
  {
    && All(payload, false)
    && if payload == [] then offset == 0 && len == 0 && flags == 0
       else Bytes(mem, payload) == Put64(offset / 512) + Put32(len / 512) + Put32(flags)
  }

  /** `m` is how a driver writes `ask` for a device of `capacity` bytes. */
  ghost predicate Encodes(mem: Mem, m: Message, ask: Ask, capacity: nat)
    requires Mapped(mem, m.payload)
  {
    match ask
    case ReadAt(offset, len) =>
      && m.code == 0 && InDevice(offset, len, capacity) && len > 0
      && m.sector == offset / 512 && |m.payload| == len && All(m.payload, true)
    case WriteAt(offset, len) =>
      && m.code == 1 && InDevice(offset, len, capacity) && len > 0
      && m.sector == offset / 512 && |m.payload| == len && All(m.payload, false)
    case FlushAll => m.code == 4 && m.payload == []
    case AskId => m.code == 8 && |m.payload| == 20 && All(m.payload, true)
    case DiscardAt(offset, len) =>
      m.code == 11 && InDevice(offset, len, capacity) && RangeOf(mem, m.payload, offset, len, 0)
    case ZeroAt(offset, len, unmap) =>
      m.code == 13 && InDevice(offset, len, capacity) && RangeOf(mem, m.payload, offset, len, if unmap then 1 else 0)
  }

  /** A request type the device does not know, or a range with flags it does not. */
  ghost predicate Foreign(mem: Mem, m: Message)
    requires Mapped(mem, m.payload)
  {
    || m.code !in {0, 1, 4, 8, 11, 13}
    || (m.code in {11, 13} && |m.payload| == 16 && All(m.payload, false) &&
        exists flags: nat :: HasFlags(mem, m.payload, flags) && (flags > 1 || (m.code == 11 && flags > 0)))
  }

  ghost predicate HasFlags(mem: Mem, payload: seq<Cell>, flags: nat)
    requires Mapped(mem, payload) && |payload| == 16
  {
    flags < 0x1_0000_0000 && Bytes(mem, payload)[12..] == Put32(flags)
  }

  /** The request the device must see. */
  predicate Spells(r: Request, ask: Ask, m: Message) {
    r.status == m.status &&
    match ask
    case ReadAt(offset, len) => r.Read? && r.offset == offset && r.len == len && Stream(r.data) == m.payload
    case WriteAt(offset, len) => r.Write? && r.offset == offset && r.len == len && Stream(r.data) == m.payload
    case FlushAll => r.Flush?
    case AskId => r.GetId? && Stream(r.data) == m.payload
    case DiscardAt(offset, len) => r.ZeroRange? && r.offset == offset && r.len == len && r.kind == Discard
    case ZeroAt(offset, len, unmap) =>
      r.ZeroRange? && r.offset == offset && r.len == len && r.kind == if unmap then ZeroUnmap else Zero
  }

  /** The meaning of a decoded request, by the ask it answers. */
  predicate Says(d: Option<Meaning>, ask: Ask, m: Message) {
    d.Some? &&
    match ask
    case ReadAt(offset, _) => d.value == MRead(m.status, offset, m.payload)
    case WriteAt(offset, _) => d.value == MWrite(m.status, offset, m.payload)
    case FlushAll => d.value == MFlush(m.status)
    case AskId => d.value == MGetId(m.status, m.payload)
    case DiscardAt(offset, len) => d.value == MZero(m.status, offset, len, Discard)
    case ZeroAt(offset, len, unmap) => d.value == MZero(m.status, offset, len, if unmap then ZeroUnmap else Zero)
  }

  lemma {:induction false} SectorsBack(offset: nat)
    requires offset % 4096 == 0
    ensures offset / 512 * 512 == offset
  {
  }

  /** A range written and read back. */
  lemma {:induction false} RangeBack(mem: Mem, payload: seq<Cell>, offset: nat, len: nat, flags: nat)
    requires Mapped(mem, payload) && RangeOf(mem, payload, offset, len, flags) && flags <= 1
    requires offset % 4096 == 0 && len % 4096 == 0 && len <= 1048576 && offset + len <= U64_MAX
    ensures |payload| == 0 || |payload| == 16
    ensures forall i | 0 <= i < |payload| :: !payload[i].writable
    ensures var b := if payload == [] then Blank(16) else Bytes(mem, payload);
      LE(b[..8]) * SECTOR == offset && LE(b[8..12]) * SECTOR == len && LE(b[12..]) == flags
  {
    hide LE, Put32, Put64;
    if payload == [] {
      BlankIs();
    } else {
      var b := Bytes(mem, payload);
      assert b[..8] == Put64(offset / 512) && b[8..12] == Put32(len / 512) && b[12..] == Put32(flags);
      Le64(offset / 512);
      Le32(len / 512);
      Le32(flags);
      SectorsBack(offset);
      SectorsBack(len);
    }
  }

  lemma {:induction false} BlankIs()
    ensures var b := Blank(16); LE(b[..8]) == 0 && LE(b[8..12]) == 0 && LE(b[12..]) == 0
  {
    var b := Blank(16);
    Eight(b[..8]);
    Four(b[..8][..4]);
    Four(b[..8][4..]);
    Four(b[8..12]);
    Four(b[12..]);
  }

  lemma {:induction false} DecodeCarried(mem: Mem, cells: seq<Cell>, m: Message, capacity: nat)
    requires Carries(mem, cells, m)
    ensures Mapped(mem, m.payload)
    ensures Decode(mem, cells, capacity) == Typed(mem, m.status, m.code, m.sector, m.payload, capacity)
  {
    hide Typed, LE, Put32, Put64;
    CarriesParts(mem, cells, m);
    DecodeTyped(mem, cells, capacity);
  }

  lemma {:induction false} ZeroSays(mem: Mem, m: Message, offset: nat, len: nat, flags: nat, capacity: nat)
    requires Mapped(mem, m.payload) && InDevice(offset, len, capacity) && RangeOf(mem, m.payload, offset, len, flags)
    requires (m.code == 11 && flags == 0) || (m.code == 13 && flags <= 1)
    ensures Typed(mem, m.status, m.code, m.sector, m.payload, capacity) ==
      Some(MZero(m.status, offset, len, if m.code == 11 then Discard else if flags == 1 then ZeroUnmap else Zero))
  {
    RangeBack(mem, m.payload, offset, len, flags);
    hide LE, Bytes, Blank, RangeOf;
  }

  /** Whatever a driver can write is decoded as written. */
  lemma {:induction false} RoundTrip(mem: Mem, cells: seq<Cell>, m: Message, ask: Ask, capacity: nat)
    requires Carries(mem, cells, m)
    ensures Mapped(mem, m.payload)
    ensures Encodes(mem, m, ask, capacity) ==> Says(Decode(mem, cells, capacity), ask, m)
  {
    DecodeCarried(mem, cells, m, capacity);
    hide Decode, Carries, RangeOf;
    if Encodes(mem, m, ask, capacity) {
      match ask
      case ReadAt(offset, _) => SectorsBack(offset);
      case WriteAt(offset, _) => SectorsBack(offset);
      case FlushAll =>
      case AskId =>
      case DiscardAt(offset, len) =>
        hide Typed;
        ZeroSays(mem, m, offset, len, 0, capacity);
      case ZeroAt(offset, len, unmap) =>
        hide Typed;
        ZeroSays(mem, m, offset, len, if unmap then 1 else 0, capacity);
    }
  }

  // ----- and nothing else ----------------------------------------------------

  /** Any sixteen bytes are some range. */
  lemma {:induction false} SomeRange(mem: Mem, payload: seq<Cell>)
    requires Mapped(mem, payload) && |payload| == 16 && All(payload, false)
    ensures var b := Bytes(mem, payload); var s, n, f := LE(b[..8]), LE(b[8..12]), LE(b[12..]);
      && HasFlags(mem, payload, f)
      && (forall g: nat :: HasFlags(mem, payload, g) ==> g == f)
      && RangeOf(mem, payload, s * 512, n * 512, f)
  {
    hide LE, Put32, Put64;
    var b := Bytes(mem, payload);
    var s, n, f := LE(b[..8]), LE(b[8..12]), LE(b[12..]);
    Read64(b[..8]);
    Read32(b[8..12]);
    Read32(b[12..]);
    assert b == b[..8] + b[8..12] + b[12..];
    assert s * 512 / 512 == s && n * 512 / 512 == n;
    forall g: nat | HasFlags(mem, payload, g) ensures g == f {
      Le32(g);
    }
  }

  /** No encoding, no data request. */
  lemma {:induction false} OtherData(mem: Mem, m: Message, capacity: nat)
    requires Mapped(mem, m.payload) && m.code in {0, 1, 4, 8} && |m.payload| <= 1048576
    requires forall ask :: !Encodes(mem, m, ask, capacity)
    ensures Typed(mem, m.status, m.code, m.sector, m.payload, capacity) == None && !Foreign(mem, m)
  {
    hide RangeOf, HasFlags;
    var offset, len := m.sector * 512, |m.payload|;
    assert offset / 512 == m.sector;
    assert !Encodes(mem, m, ReadAt(offset, len), capacity);
    assert !Encodes(mem, m, WriteAt(offset, len), capacity);
    assert !Encodes(mem, m, FlushAll, capacity);
    assert !Encodes(mem, m, AskId, capacity);
  }

  lemma {:induction false} OtherZero(mem: Mem, m: Message, capacity: nat)
    requires Mapped(mem, m.payload) && m.code in {11, 13} && m.payload != []
    requires forall ask :: !Encodes(mem, m, ask, capacity)
    ensures Typed(mem, m.status, m.code, m.sector, m.payload, capacity) ==
      if Foreign(mem, m) then Some(MUnsupported(m.status)) else None
  {
    if |m.payload| == 16 && All(m.payload, false) {
      SomeRange(mem, m.payload);
      var b := Bytes(mem, m.payload);
      hide LE, Bytes, HasFlags, RangeOf, Put32, Put64;
      var s, n, f := LE(b[..8]), LE(b[8..12]), LE(b[12..]);
      assert Foreign(mem, m) <==> f > 1 || (m.code == 11 && f > 0);
      assert !Encodes(mem, m, DiscardAt(s * 512, n * 512), capacity);
      assert !Encodes(mem, m, ZeroAt(s * 512, n * 512, f == 1), capacity);
    }
  }

  lemma {:induction false} OtherEmpty(mem: Mem, m: Message, capacity: nat)
    requires Mapped(mem, m.payload) && m.code in {11, 13} && m.payload == []
    ensures Encodes(mem, m, if m.code == 11 then DiscardAt(0, 0) else ZeroAt(0, 0, false), capacity)
  {
  }

  lemma {:induction false} OtherCode(mem: Mem, m: Message, capacity: nat)
    requires Mapped(mem, m.payload) && m.code !in {0, 1, 4, 8, 11, 13}
    ensures Typed(mem, m.status, m.code, m.sector, m.payload, capacity) == Some(MUnsupported(m.status))
  {
  }

  /** A framed chain that no driver's request looks like is unsupported just when it is foreign. */
  lemma {:induction false} NothingElse(mem: Mem, cells: seq<Cell>, m: Message, capacity: nat)
    requires Carries(mem, cells, m)
    ensures Mapped(mem, m.payload)
    ensures (forall ask :: !Encodes(mem, m, ask, capacity)) ==>
      Decode(mem, cells, capacity) == if Foreign(mem, m) then Some(MUnsupported(m.status)) else None
  {
    DecodeCarried(mem, cells, m, capacity);
    PayloadSize(mem, cells, m);
    hide Decode, Carries, Typed, Encodes, HasFlags;
    if forall ask :: !Encodes(mem, m, ask, capacity) {
      if m.code in {0, 1, 4, 8} {
        OtherData(mem, m, capacity);
      } else if m.code !in {11, 13} {
        OtherCode(mem, m, capacity);
      } else {
        if m.payload == [] { OtherEmpty(mem, m, capacity); }
        OtherZero(mem, m, capacity);
      }
    }
  }

  lemma {:induction false} PayloadSize(mem: Mem, cells: seq<Cell>, m: Message)
    requires Carries(mem, cells, m)
    ensures |m.payload| <= 1048576
  {
  }

  /** What is not framed as a message is refused. */
  lemma {:induction false} Unframed(mem: Mem, cells: seq<Cell>, capacity: nat)
    requires forall m :: !Carries(mem, cells, m)
    ensures Decode(mem, cells, capacity) == None
  {
    if Accepts(mem, cells) {
      AcceptedCarries(mem, cells);
    }
  }

  // ----- every request can be written ----------------------------------------

  predicate Askable(ask: Ask, capacity: nat) {
    match ask
    case ReadAt(offset, len) => InDevice(offset, len, capacity) && len > 0
    case WriteAt(offset, len) => InDevice(offset, len, capacity) && len > 0
    case DiscardAt(offset, len) => InDevice(offset, len, capacity)
    case ZeroAt(offset, len, _) => InDevice(offset, len, capacity)
    case _ => true
  }

  /** A driver's encoder: type and sector, then the payload and whether the device writes it. */
  function Code(ask: Ask): nat {
    match ask
    case ReadAt(_, _) => 0
    case WriteAt(_, _) => 1
    case FlushAll => 4
    case AskId => 8
    case DiscardAt(_, _) => 11
    case ZeroAt(_, _, _) => 13
  }

  function Sector(ask: Ask): nat {
    match ask
    case ReadAt(offset, _) => offset / 512
    case WriteAt(offset, _) => offset / 512
    case _ => 0
  }

  function Payload(ask: Ask): seq<byte> {
    match ask
    case ReadAt(_, len) => Blank(len)
    case WriteAt(_, len) => Blank(len)
    case FlushAll => []
    case AskId => Blank(20)
    case DiscardAt(offset, len) => Put64(offset / 512) + Put32(len / 512) + Put32(0)
    case ZeroAt(offset, len, unmap) => Put64(offset / 512) + Put32(len / 512) + Put32(if unmap then 1 else 0)
  }

  predicate Inward(ask: Ask) { ask.ReadAt? || ask.AskId? }

  function Wire(ask: Ask): seq<byte> {
    Put32(Code(ask)) + Put32(0) + Put64(Sector(ask)) + Payload(ask) + [255]
  }

  function Boundary(ask: Ask): nat {
    if Inward(ask) then 16 else 16 + |Payload(ask)|
  }

  /** The bytes from address zero on, and a chain over them: writable past the boundary. */
  function Filled(bytes: seq<byte>): Mem {
    var m := map a: nat | a < |bytes| :: bytes[a];
    Mem(m, m.Keys)
  }

  function Over(n: nat, boundary: nat): (c: seq<Cell>)
    ensures |c| == n
  {
    seq(n, a requires 0 <= a < n => Cell(a, boundary <= a))
  }

  lemma {:induction false} FilledReads(bytes: seq<byte>, boundary: nat, i: nat, j: nat)
    requires i <= j <= |bytes| <= U64_MAX
    ensures Mapped(Filled(bytes), Over(|bytes|, boundary)[i..j])
    ensures Bytes(Filled(bytes), Over(|bytes|, boundary)[i..j]) == bytes[i..j]
    ensures i <= boundary ==> j <= boundary ==> All(Over(|bytes|, boundary)[i..j], false)
    ensures boundary <= i ==> All(Over(|bytes|, boundary)[i..j], true)
    ensures forall a, b | 0 <= a < b < j - i ::
      Over(|bytes|, boundary)[i..j][a].writable ==> Over(|bytes|, boundary)[i..j][b].writable
  {
  }

  lemma {:induction false} WireParts(ask: Ask, capacity: nat)
    requires Askable(ask, capacity)
    ensures var w := Wire(ask); var n := |Payload(ask)|;
      && n <= 1048576 && |w| == 17 + n && w[16..16 + n] == Payload(ask)
      && w[..16] == w[0..16] == Put32(Code(ask)) + Put32(0) + Put64(Sector(ask))
      && Code(ask) < 0x1_0000_0000 && Sector(ask) < 0x1_0000_0000_0000_0000
      && Boundary(ask) == if Inward(ask) then 16 else 16 + n
  {
    hide Put32, Put64;
  }

  function MessageFor(ask: Ask): Message {
    var n := |Payload(ask)|;
    var cells := Over(|Wire(ask)|, Boundary(ask));
    Message(Code(ask), 0, Sector(ask), if 16 + n <= |cells| then cells[16..16 + n] else [], 16 + n)
  }

  lemma {:induction false} WireCarries(ask: Ask, capacity: nat)
    requires Askable(ask, capacity)
    ensures Carries(Filled(Wire(ask)), Over(|Wire(ask)|, Boundary(ask)), MessageFor(ask))
  {
    WireParts(ask, capacity);
    var w, b := Wire(ask), Boundary(ask);
    hide Put32, Put64, Wire, Payload, Code, Sector, Filled, Bytes, Mapped, Over, All, Boundary;
    OverIs(|w|, b);
    FilledReads(w, b, 0, 16);
    FilledReads(w, b, 0, |w|);
    FilledReads(w, b, 16, |w| - 1);
    assert Over(|w|, b)[0..|w|] == Over(|w|, b) && Over(|w|, b)[..16] == Over(|w|, b)[0..16];
  }

  lemma {:induction false} OverIs(n: nat, boundary: nat)
    ensures forall i | 0 <= i < n :: Over(n, boundary)[i] == Cell(i, boundary <= i)
  {
  }

  /** So for each request there is a chain, and what is said of parsing it is not empty. */
  lemma {:induction false} EveryAskHasAChain(ask: Ask, capacity: nat)
    requires Askable(ask, capacity)
    ensures var mem, cells := Filled(Wire(ask)), Over(|Wire(ask)|, Boundary(ask));
      && Carries(mem, cells, MessageFor(ask)) && Mapped(mem, MessageFor(ask).payload)
      && Encodes(mem, MessageFor(ask), ask, capacity)
  {
    WireParts(ask, capacity);
    WireCarries(ask, capacity);
    var w, b := Wire(ask), Boundary(ask);
    FilledReads(w, b, 16, |w| - 1);
    hide Put32, Put64, Wire, Carries, Filled, Bytes, Over, Mapped, All;
  }

  // ----- the parser ----------------------------------------------------------

  lemma {:induction false} SaysSpells(res: Result<Request, string>, d: Option<Meaning>, ask: Ask, m: Message)
    requires Same(res, d) && Says(d, ask, m)
    requires ask.ReadAt? || ask.WriteAt? ==> |m.payload| == ask.len
    ensures res.Ok? && Spells(res.value, ask, m)
  {
    hide Stream, NoneEmpty;
  }

  lemma {:induction false} DataLength(mem: Mem, m: Message, ask: Ask, capacity: nat)
    requires Mapped(mem, m.payload) && Encodes(mem, m, ask, capacity)
    ensures ask.ReadAt? || ask.WriteAt? ==> |m.payload| == ask.len
  {
  }

  /**
   * However a driver scatters a request over descriptors, the parser gives back
   * its kind, range, status address and payload bytes; a chain that is no such
   * request is unsupported if its type or flags are unknown, and else refused.
   */
  method ParseExactly(mem: Mem, descriptors: seq<Segment>, capacity: nat) returns (res: Result<Request, string>)
    ensures forall m | Carries(mem, Stream(descriptors), m) ::
      && Mapped(mem, m.payload)
      && (forall ask | Encodes(mem, m, ask, capacity) :: res.Ok? && Spells(res.value, ask, m))
      && ((forall ask :: !Encodes(mem, m, ask, capacity)) ==>
            if Foreign(mem, m) then res == Ok(Unsupported(m.status)) else res.Err?)
    ensures (forall m :: !Carries(mem, Stream(descriptors), m)) ==> res.Err?
  {
    hide *;
    res := Parse(mem, descriptors, capacity);
    ghost var cells := Stream(descriptors);
    ghost var d := Decode(mem, cells, capacity);
    forall m | Carries(mem, cells, m)
      ensures Mapped(mem, m.payload)
      ensures forall ask | Encodes(mem, m, ask, capacity) :: res.Ok? && Spells(res.value, ask, m)
      ensures (forall ask :: !Encodes(mem, m, ask, capacity)) ==>
        if Foreign(mem, m) then res == Ok(Unsupported(m.status)) else res.Err?
    {
      NothingElse(mem, cells, m, capacity);
      forall ask | Encodes(mem, m, ask, capacity) ensures res.Ok? && Spells(res.value, ask, m) {
        RoundTrip(mem, cells, m, ask, capacity);
        DataLength(mem, m, ask, capacity);
        SaysSpells(res, d, ask, m);
      }
      SameUnsupported(res, d, m.status);
    }
    if forall m :: !Carries(mem, cells, m) {
      Unframed(mem, cells, capacity);
      SameUnsupported(res, d, 0);
    }
  }

  lemma {:induction false} SameUnsupported(res: Result<Request, string>, d: Option<Meaning>, status: nat)
    requires Same(res, d)
    ensures d == Some(MUnsupported(status)) ==> res == Ok(Unsupported(status))
    ensures d == None ==> res.Err?
  {
  }

  /** The last byte of a chain can take a status. */
  predicate Answerable(mem: Mem, cells: seq<Cell>) {
    cells != [] && var last := cells[|cells| - 1];
    last.writable && last.addr <= 0xFFFF_FFFF_FFFF_FFFF && last.addr in mem.bytes && last.addr in mem.writable
  }

  /**
   * The same for the chain as the backend takes it: what is refused is answered
   * with an error if it can be answered at all.
   */
  method DecodeExactly(mem: Mem, descriptors: seq<Segment>, more: bool, capacity: nat) returns (chain: Chain)
    ensures more ==> chain == Malformed
    ensures !more ==> forall m | Carries(mem, Stream(descriptors), m) ::
      && Mapped(mem, m.payload)
      && (forall ask | Encodes(mem, m, ask, capacity) :: chain.Decoded? && Spells(chain.request, ask, m))
      && ((forall ask :: !Encodes(mem, m, ask, capacity)) ==>
            chain == if Foreign(mem, m) then Decoded(Unsupported(m.status)) else Invalid(m.status))
    ensures !more && (forall m :: !Carries(mem, Stream(descriptors), m)) ==>
      var cells := Stream(descriptors);
      chain == if Answerable(mem, cells) then Invalid(cells[|cells| - 1].addr) else Malformed
  {
    hide *;
    chain := DecodeChain(mem, descriptors, more, capacity);
    if more { return; }
    ghost var cells := Stream(descriptors);
    ghost var d := Decode(mem, cells, capacity);
    ghost var res: Result<Request, string> := if chain.Decoded? then Ok(chain.request) else Err("");
    ChainSame(chain, d);
    AnswerableIs(mem, cells);
    forall m | Carries(mem, cells, m)
      ensures Mapped(mem, m.payload)
      ensures forall ask | Encodes(mem, m, ask, capacity) :: chain.Decoded? && Spells(chain.request, ask, m)
      ensures (forall ask :: !Encodes(mem, m, ask, capacity)) ==>
        chain == if Foreign(mem, m) then Decoded(Unsupported(m.status)) else Invalid(m.status)
    {
      NothingElse(mem, cells, m, capacity);
      CarriedAnswerable(mem, cells, m);
      forall ask | Encodes(mem, m, ask, capacity) ensures chain.Decoded? && Spells(chain.request, ask, m) {
        RoundTrip(mem, cells, m, ask, capacity);
        DataLength(mem, m, ask, capacity);
        SaysSpells(res, d, ask, m);
      }
      SameUnsupported(res, d, m.status);
    }
    if forall m :: !Carries(mem, cells, m) {
      Unframed(mem, cells, capacity);
    }
  }

  lemma {:induction false} ChainSame(chain: Chain, d: Option<Meaning>)
    requires match chain case Decoded(r) => d == Some(MeaningOf(r)) && Lengths(r) case _ => d.None?
    ensures Same(if chain.Decoded? then Ok(chain.request) else Err(""), d)
  {
  }

  lemma {:induction false} AnswerableIs(mem: Mem, cells: seq<Cell>)
    ensures StatusOk(mem, cells) <==> Answerable(mem, cells)
    ensures Answerable(mem, cells) ==> cells != []
  {
  }

  lemma {:induction false} CarriedAnswerable(mem: Mem, cells: seq<Cell>, m: Message)
    requires Carries(mem, cells, m)
    ensures cells != [] && Answerable(mem, cells) && cells[|cells| - 1].addr == m.status
  {
    hide Put32, Put64, Bytes;
  }
}
