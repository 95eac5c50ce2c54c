/**
 * Reconciliation of a retained mapping with the guest's used indices: validate
 * everything, then repair store by store, then say what must be replayed.
 */
module InflightRecovery {
  import opened Units
  import opened Sorting
  import opened InflightLayout

  datatype Saved = Saved(state: nat, entry: Entry, inflight: bool) {
    function Where(): Id { entry.request.Where() }
  }

  datatype Replay = Replay(entries: seq<Entry>, discovered: seq<(nat, Request)>,
                           discovery: nat, serial: nat, mutation: nat, published: nat)

  datatype Plan = Plan(stores: seq<Store>, replay: Replay)

  // ----- validation ----------------------------------------------------------

  function Above(x: nat): nat { if x < U64_MAX then x + 1 else U64_MAX }

  predicate HeaderOk(cfg: Config, m: Memory) {
    m.identity == cfg.identity && m.published <= m.mutation && m.failed == 0
  }

  predicate QueueOk(cfg: Config, s: Queue) {
    && s.version <= 1 && s.features == 0
    && (s.version == 1 ==> s.descriptors == cfg.size)
    && (s.version == 0 ==> s.descriptors == 0 || s.descriptors == cfg.size)
    && s.lastHead < cfg.size
    && s.available < 0x1_0000
  }

  predicate CellOk(cfg: Config, m: Memory, id: Id)
    requires id in m.cells && id.queue < |m.queues|
  {
    var c := m.cells[id];
    var reading := ReadSlot(cfg, c, id);
    && c.inflight <= 1
    && reading.Ok?
    && match reading.value
       case Vacant => c.inflight == 0
       case Occupied(state, e) =>
         && m.queues[id.queue].version == 1
         && e.discovery <= Above(m.discovery)
         && (state == DISCOVERED ==> c.inflight == 0)
         && e.serial <= Above(m.serial)
         && e.mutation <= Above(m.mutation)
         && e.boundary <= m.mutation
         && (state == ACTIVE && c.inflight == 0 ==> e.Required() <= m.published)
         && (state == ACTIVE || c.inflight == 1 ==> c.counter == e.serial)
  }

  function Record(cfg: Config, m: Memory, id: Id): (r: seq<Saved>)
    requires id in m.cells
    ensures |r| <= 1
  {
    match ReadSlot(cfg, m.cells[id], id)
    case Ok(Occupied(state, e)) => [Saved(state, e, m.cells[id].inflight == 1)]
    case _ => []
  }

  /** Records of every queue below `q`, and of the first `h` heads of `q`. */
  function Gather(cfg: Config, m: Memory, q: nat, h: nat): seq<Saved>
    requires forall id | cfg.Has(id) :: id in m.cells
    requires h <= cfg.size && q <= cfg.queues && (q == cfg.queues ==> h == 0)
    decreases q, h
  {
    if h > 0 then Gather(cfg, m, q, h - 1) + Record(cfg, m, Id(q, h - 1))
    else if q > 0 then Gather(cfg, m, q - 1, cfg.size)
    else []
  }

  function SerialOf(): Saved -> nat { (r: Saved) => r.entry.serial }

  function All(cfg: Config, m: Memory): seq<Saved>
    requires forall id | cfg.Has(id) :: id in m.cells
  {
    Sort(Gather(cfg, m, cfg.queues, 0), SerialOf())
  }

  predicate Distinct(s: seq<Saved>) {
    && (forall i, j | 0 <= i < j < |s| :: s[i].entry.serial == s[j].entry.serial ==> s[i].entry.serial == 0)
    && (forall i, j | 0 <= i < j < |s| :: s[i].entry.discovery == s[j].entry.discovery ==> s[i].entry.discovery == 0)
    && (forall i, j | 0 <= i < j < |s| :: s[i].entry.mutation == s[j].entry.mutation ==> s[i].entry.mutation == 0)
  }

  predicate ScanOk(cfg: Config, m: Memory)
    requires forall id | cfg.Has(id) :: id in m.cells
    requires |m.queues| == cfg.queues
  {
    && (forall q | 0 <= q < cfg.queues :: QueueOk(cfg, m.queues[q]))
    && (forall id | id in m.cells && cfg.Has(id) :: CellOk(cfg, m, id))
    && Distinct(All(cfg, m))
  }

  // ----- interrupted completions ---------------------------------------------

  function AtHead(saved: seq<Saved>, id: Id): Option<Saved> {
    if saved == [] then None
    else if saved[0].Where() == id then Some(saved[0])
    else AtHead(saved[1..], id)
  }

  /** The completion the guest saw but the mapping did not finish, on one queue. */
  function Interrupted(m: Memory, saved: seq<Saved>, q: nat, guest: Option<u16>): Result<Option<(Entry, u16)>, string>
    requires q < |m.queues|
  {
    var s := m.queues[q];
    if s.version == 0 && guest.None? then Ok(None)
    else if guest.None? then Err("initialized queue has no guest used cursor")
    else if s.version != 1 then Err("guest queue has no initialized inflight region")
    else
      var ahead := Sub16(guest.value, s.used);
      if ahead == 0 then Ok(None)
      else if ahead > 1 then Err("guest used cursor exceeds one completion transaction")
      else match AtHead(saved, Id(q, s.lastHead))
        case None => Err("used publication has no saved head")
        case Some(r) =>
          if r.state != ACTIVE || r.entry.Required() > m.published then
            Err("used publication precedes active request or published mutation")
          else Ok(Some((r.entry, guest.value)))
  }

  function Completed(m: Memory, saved: seq<Saved>, guest: seq<Option<u16>>, n: nat): Result<seq<(Entry, u16)>, string>
    requires n <= |m.queues| && n <= |guest|
  {
    if n == 0 then Ok([]) else
    match Completed(m, saved, guest, n - 1)
    case Err(e) => Err(e)
    case Ok(done) =>
      match Interrupted(m, saved, n - 1, guest[n - 1])
      case Err(e) => Err(e)
      case Ok(None) => Ok(done)
      case Ok(Some(c)) => Ok(done + [c])
  }

  // ----- highest identities --------------------------------------------------

  /** The saved record with the greatest discovery. */
  function Newest(saved: seq<Saved>): Option<Saved> {
    if saved == [] then None else
    match Newest(saved[..|saved| - 1])
    case None => Some(saved[|saved| - 1])
    case Some(best) =>
      if saved[|saved| - 1].entry.discovery >= best.entry.discovery then Some(saved[|saved| - 1]) else Some(best)
  }

  function Latest(m: Memory, saved: seq<Saved>): Option<Saved> {
    match Newest(saved)
    case Some(r) => if r.entry.discovery >= m.discovery then Some(r) else None
    case None => None
  }

  function HighestSerial(m: Memory, saved: seq<Saved>): nat {
    if saved == [] then m.serial
    else if saved[|saved| - 1].entry.serial > m.serial then saved[|saved| - 1].entry.serial else m.serial
  }

  function HighestMutation(start: nat, saved: seq<Saved>): nat {
    if saved == [] then start else
    var rest := HighestMutation(start, saved[..|saved| - 1]);
    if saved[|saved| - 1].entry.mutation > rest then saved[|saved| - 1].entry.mutation else rest
  }

  // ----- repair --------------------------------------------------------------

  function FinishStores(e: Entry, used: u16): seq<Store> {
    [Slot(e.request.Where(), Inflight, 0), Used(e.request.queue, used), Slot(e.request.Where(), State, EMPTY)]
  }

  function ActivateStores(e: Entry): seq<Store> {
    var id := e.request.Where();
    [Slot(id, Counter, e.serial), Slot(id, Inflight, 1), Slot(id, State, ACTIVE)]
  }

  function FinishAll(done: seq<(Entry, u16)>): seq<Store> {
    if done == [] then []
    else FinishAll(done[..|done| - 1]) + FinishStores(done[|done| - 1].0, done[|done| - 1].1)
  }

  predicate IsDone(done: seq<(Entry, u16)>, e: Entry) {
    exists i | 0 <= i < |done| :: done[i].0 == e
  }

  datatype Disposition = Skip | Keep | Drop | Restart

  function Dispose(done: seq<(Entry, u16)>, r: Saved): Disposition {
    if IsDone(done, r.entry) then Skip
    else if r.state == DISCOVERED then Keep
    else if r.state == ACTIVE && !r.inflight then Drop
    else Restart
  }

  function RecordStores(done: seq<(Entry, u16)>, r: Saved): seq<Store> {
    match Dispose(done, r)
    case Skip => []
    case Keep => []
    case Drop => [Slot(r.Where(), State, EMPTY)]
    case Restart => ActivateStores(r.entry)
  }

  function RepairStores(done: seq<(Entry, u16)>, saved: seq<Saved>): seq<Store> {
    if saved == [] then []
    else RepairStores(done, saved[..|saved| - 1]) + RecordStores(done, saved[|saved| - 1])
  }

  function CursorStores(latest: Option<Saved>): seq<Store> {
    match latest
    case None => []
    case Some(r) =>
      [HighDiscovery(r.entry.discovery), Avail(r.entry.request.queue, Next16(r.entry.request.available))]
  }

  function Entries(done: seq<(Entry, u16)>, saved: seq<Saved>): seq<Entry> {
    if saved == [] then []
    else Entries(done, saved[..|saved| - 1]) +
         if Dispose(done, saved[|saved| - 1]) == Restart then [saved[|saved| - 1].entry] else []
  }

  function Waiting(done: seq<(Entry, u16)>, saved: seq<Saved>): seq<(nat, Request)> {
    if saved == [] then []
    else Waiting(done, saved[..|saved| - 1]) +
         if Dispose(done, saved[|saved| - 1]) == Keep
         then [(saved[|saved| - 1].entry.discovery, saved[|saved| - 1].entry.request)] else []
  }

  function OrderOf(): ((nat, Request)) -> nat { (p: (nat, Request)) => p.0 }

  predicate CursorOk(m: Memory, latest: Option<Saved>) {
    match latest
    case None => true
    case Some(r) =>
      && r.entry.request.queue < |m.queues|
      && var cursor := m.queues[r.entry.request.queue].available;
         cursor == r.entry.request.available || cursor == Next16(r.entry.request.available)
  }

  function Reconcile(cfg: Config, m: Memory, guest: seq<Option<u16>>): Result<Plan, string>
    requires forall id | cfg.Has(id) :: id in m.cells
    requires |m.queues| == cfg.queues
  {
    if !HeaderOk(cfg, m) then Err("inflight header differs")
    else if !ScanOk(cfg, m) then Err("inflight slots or queues differ")
    else if |guest| != cfg.queues then Err("missing guest queue cursors")
    else
      var saved := All(cfg, m);
      match Completed(m, saved, guest, cfg.queues)
      case Err(e) => Err(e)
      case Ok(done) =>
        var latest := Latest(m, saved);
        if !CursorOk(m, latest) then Err("newest discovery cannot repair available cursor") else
        var serial := HighestSerial(m, saved);
        var mutation := HighestMutation(m.mutation, saved);
        Ok(Plan(
          FinishAll(done) + RepairStores(done, saved) + CursorStores(latest) +
            [HighSerial(serial), HighMutation(mutation)],
          Replay(Entries(done, saved), Sort(Waiting(done, saved), OrderOf()),
                 if latest.Some? then latest.value.entry.discovery else m.discovery,
                 serial, mutation, m.published)))
  }

  /** The used indices a replacement reads: none for a queue never initialized. */
  function GuestView(w: World): seq<Option<u16>>
    requires |w.guest| == |w.m.queues|
  {
    seq(|w.guest|, q requires 0 <= q < |w.guest| => if w.m.queues[q].version == 1 then Some(w.guest[q]) else None)
  }
}
