/**
 * The shared mapping that survives a daemon: standard queue and descriptor
 * fields, the private trailer header and one private slot per descriptor head.
 * Every write is one atomic store to one field.
 */
module InflightLayout {
  import opened Units

  const EMPTY: nat := 0
  const PREPARED: nat := 1
  const ACTIVE: nat := 2
  const DISCOVERED: nat := 3

  datatype Kind = Read | Write | Zero | Flush | Protocol | Discard | ZeroUnmap {
    predicate Zeroes() { Zero? || Discard? || ZeroUnmap? }

    function Code(): (c: nat)
      ensures 1 <= c <= 7
      ensures DecodeKind(c) == Some(this)
    {
      match this
      case Read => 1
      case Write => 2
      case Zero => 3
      case Flush => 4
      case Protocol => 5
      case Discard => 6
      case ZeroUnmap => 7
    }
  }

  function DecodeKind(code: nat): (k: Option<Kind>) {
    match code
    case 1 => Some(Read)
    case 2 => Some(Write)
    case 3 => Some(Zero)
    case 4 => Some(Flush)
    case 5 => Some(Protocol)
    case 6 => Some(Discard)
    case 7 => Some(ZeroUnmap)
    case _ => None
  }

  /** A descriptor head of one queue. */
  datatype Id = Id(queue: nat, head: nat)

  datatype Request = Request(kind: Kind, queue: nat, head: nat, available: u16, offset: nat, length: nat) {
    function Where(): Id { Id(queue, head) }

    predicate Mutates() { (kind.Write? || kind.Zeroes()) && length != 0 }

    predicate Valid(imageBytes: nat) {
      match kind
      case Flush => offset == 0 && length == 0
      case Protocol => offset == 0 && length == 0
      case _ =>
        && offset % BLOCK == 0
        && length % BLOCK == 0
        && offset + length <= imageBytes
        && (kind.Zeroes() || 0 < length <= MAX_REQUEST)
    }
  }

  datatype Entry = Entry(request: Request, serial: nat, mutation: nat, boundary: nat,
                         attachment: nat, rejected: bool, discovery: nat) {
    /** The published prefix a successful completion waits for. */
    function Required(): nat {
      if rejected then 0
      else if request.kind.Read? || request.kind.Flush? then boundary
      else mutation
    }
  }

  /** One descriptor's standard fields together with its private slot. */
  datatype Cell = Cell(state: nat, kind: nat, queue: nat, head: nat, available: u16, flags: nat,
                       serial: nat, mutation: nat, boundary: nat, offset: nat, length: nat,
                       attachment: nat, discovery: nat, reserved: nat,
                       inflight: nat, next: nat, counter: nat)

  datatype Queue = Queue(features: nat, version: nat, descriptors: nat, lastHead: nat,
                         used: u16, available: nat)

  /** Store and image identity, epoch, geometry, magic and reserved bytes. */
  datatype Identity = Identity(tag: nat, attachment: nat)

  datatype Memory = Memory(identity: Identity, failed: nat, serial: nat, mutation: nat,
                           published: nat, discovery: nat, queues: seq<Queue>, cells: map<Id, Cell>)

  datatype Config = Config(queues: nat, size: nat, identity: Identity, imageBytes: nat) {
    predicate Valid() { 1 <= queues <= 4 && 1 <= size <= 256 }
    predicate Has(id: Id) { id.queue < queues && id.head < size }
  }

  /** The mapping has the shape its geometry gives it. */
  ghost predicate Shaped(cfg: Config, m: Memory) {
    && |m.queues| == cfg.queues
    && (forall id :: id in m.cells <==> cfg.Has(id))
  }

  /** The mapping together with the used index each guest ring shows. */
  datatype World = World(m: Memory, guest: seq<u16>)

  datatype Field =
    | State | KindCode | QueueNumber | Head | Available | Flags | Serial | Mutation | Boundary
    | Offset | Length | Attachment | Discovery | Inflight | Next | Counter

  function Put(c: Cell, f: Field, v: nat): Cell {
    match f
    case State => c.(state := v)
    case KindCode => c.(kind := v)
    case QueueNumber => c.(queue := v)
    case Head => c.(head := v)
    case Available => c.(available := Low16(v))
    case Flags => c.(flags := v)
    case Serial => c.(serial := v)
    case Mutation => c.(mutation := v)
    case Boundary => c.(boundary := v)
    case Offset => c.(offset := v)
    case Length => c.(length := v)
    case Attachment => c.(attachment := v)
    case Discovery => c.(discovery := v)
    case Inflight => c.(inflight := v)
    case Next => c.(next := v)
    case Counter => c.(counter := v)
  }

  /** One store. `Publish` is the guest-visible increment of `used.idx`. */
  datatype Store =
    | Slot(id: Id, field: Field, value: nat)
    | LastHead(queue: nat, head: nat)
    | Used(queue: nat, cursor: u16)
    | Avail(queue: nat, cursor: u16)
    | Descriptors(queue: nat, value: nat)
    | Version(queue: nat, value: nat)
    | HighDiscovery(value: nat)
    | HighSerial(value: nat)
    | HighMutation(value: nat)
    | Prefix(value: nat)
    | Fail
    | Publish(queue: nat)

  predicate Lands(w: World, s: Store) {
    match s
    case Slot(id, _, _) => id in w.m.cells
    case LastHead(q, _) => q < |w.m.queues|
    case Used(q, _) => q < |w.m.queues|
    case Avail(q, _) => q < |w.m.queues|
    case Descriptors(q, _) => q < |w.m.queues|
    case Version(q, _) => q < |w.m.queues|
    case Publish(q) => q < |w.guest|
    case _ => true
  }

  /** A store outside the mapping has no effect; the source never issues one. */
  function Apply(w: World, s: Store): World {
    if !Lands(w, s) then w else
    var m := w.m;
    match s
    case Slot(id, f, v) => w.(m := m.(cells := m.cells[id := Put(m.cells[id], f, v)]))
    case LastHead(q, h) => w.(m := m.(queues := m.queues[q := m.queues[q].(lastHead := h)]))
    case Used(q, c) => w.(m := m.(queues := m.queues[q := m.queues[q].(used := c)]))
    case Avail(q, c) => w.(m := m.(queues := m.queues[q := m.queues[q].(available := c)]))
    case Descriptors(q, v) => w.(m := m.(queues := m.queues[q := m.queues[q].(descriptors := v)]))
    case Version(q, v) => w.(m := m.(queues := m.queues[q := m.queues[q].(version := v)]))
    case HighDiscovery(v) => w.(m := m.(discovery := v))
    case HighSerial(v) => w.(m := m.(serial := v))
    case HighMutation(v) => w.(m := m.(mutation := v))
    case Prefix(v) => w.(m := m.(published := v))
    case Fail => w.(m := m.(failed := 1))
    case Publish(q) => w.(guest := w.guest[q := Next16(w.guest[q])])
  }

  function Run(w: World, stores: seq<Store>): World
    decreases |stores|
  {
    if stores == [] then w else Run(Apply(w, stores[0]), stores[1..])
  }

  /** The mapping as a crash after the first `k` stores leaves it. */
  function Cut(w: World, stores: seq<Store>, k: nat): World
    requires k <= |stores|
  {
    Run(w, stores[..k])
  }

  lemma {:induction false} RunConcat(w: World, a: seq<Store>, b: seq<Store>)
    ensures Run(w, a + b) == Run(Run(w, a), b)
    decreases |a|
  {
    if a == [] {
      assert a + b == b;
    } else {
      assert (a + b)[1..] == a[1..] + b;
      RunConcat(Apply(w, a[0]), a[1..], b);
    }
  }

  lemma {:induction false} CutStep(w: World, stores: seq<Store>, k: nat)
    requires k < |stores|
    ensures Cut(w, stores, k + 1) == Apply(Cut(w, stores, k), stores[k])
  {
    assert stores[..k + 1] == stores[..k] + [stores[k]];
    RunConcat(w, stores[..k], [stores[k]]);
    assert Run(Cut(w, stores, k), [stores[k]]) == Apply(Cut(w, stores, k), stores[k]) by {
      assert [stores[k]][1..] == [];
    }
  }

  lemma {:induction false} CutConcat(w: World, s: seq<Store>, t: seq<Store>, k: nat)
    requires k <= |s| + |t|
    ensures Cut(w, s + t, k) == if k <= |s| then Cut(w, s, k) else Cut(Run(w, s), t, k - |s|)
  {
    if k <= |s| {
      assert (s + t)[..k] == s[..k];
    } else {
      assert (s + t)[..k] == s + t[..k - |s|];
      RunConcat(w, s, t[..k - |s|]);
    }
  }

  lemma {:induction false} RunShape(cfg: Config, w: World, stores: seq<Store>)
    requires Shaped(cfg, w.m)
    ensures Shaped(cfg, Run(w, stores).m) && |Run(w, stores).guest| == |w.guest|
    decreases |stores|
  {
    if stores != [] {
      RunShape(cfg, Apply(w, stores[0]), stores[1..]);
    }
  }

  /** What one slot says: nothing, or a phase and an entry. */
  datatype Reading = Vacant | Occupied(state: nat, entry: Entry)

  function ReadSlot(cfg: Config, c: Cell, id: Id): (r: Result<Reading, string>) {
    if c.flags > 1 || c.reserved != 0 then Err("nonzero reserved inflight slot bytes")
    else if c.state == EMPTY then Ok(Vacant)
    else if c.state != PREPARED && c.state != ACTIVE && c.state != DISCOVERED then
      Err("unknown inflight slot state")
    else match DecodeKind(c.kind)
      case None => Err("unknown inflight request kind")
      case Some(kind) =>
        var request := Request(kind, c.queue, c.head, c.available, c.offset, c.length);
        if !request.Valid(cfg.imageBytes) then Err("invalid inflight logical range")
        else if c.state == DISCOVERED then
          if request.Where() != id || c.attachment != cfg.identity.attachment || c.discovery == 0 then
            Err("discovered descriptor identity differs")
          else
            // Admission may have been interrupted among the remaining fields.
            Ok(Occupied(DISCOVERED, Entry(request, 0, 0, 0, cfg.identity.attachment, false, c.discovery)))
        else
          var entry := Entry(request, c.serial, c.mutation, c.boundary, c.attachment, c.flags == 1, c.discovery);
          var expected := if request.Mutates() && !entry.rejected then c.boundary + 1 else 0;
          if request.Where() != id || c.attachment != cfg.identity.attachment || c.serial == 0
             || c.discovery == 0 || c.mutation != expected || expected > U64_MAX
          then Err("inflight slot identity or mutation differs")
          else Ok(Occupied(c.state, entry))
  }
}
