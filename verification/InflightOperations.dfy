/**
 * Each carrier operation as the ordered list of stores it issues, and what a
 * crash between any two of them leaves behind.
 */
module InflightOperations {
  import opened Units
  import opened InflightLayout
  import opened InflightModel
  import opened InflightRefinement

  // ----- guards, read from the mapping ---------------------------------------

  predicate InitializeOk(cfg: Config, m: Memory, q: nat) {
    m.failed == 0 && q < cfg.queues && q < |m.queues| && m.queues[q].version == 0
  }

  predicate ResetOk(cfg: Config, m: Memory, q: nat) {
    && m.failed == 0 && q < cfg.queues && q < |m.queues| && m.queues[q].version == 1
    && (forall h | 0 <= h < cfg.size ::
         Id(q, h) in m.cells && m.cells[Id(q, h)].state == EMPTY && m.cells[Id(q, h)].inflight == 0)
  }

  predicate DiscoverOk(cfg: Config, m: Memory, r: Request) {
    && m.failed == 0
    && r.Valid(cfg.imageBytes)
    && cfg.Has(r.Where()) && r.Where() in m.cells && r.queue < |m.queues|
    && m.queues[r.queue].version == 1
    && m.queues[r.queue].available == r.available
    && m.cells[r.Where()].state == EMPTY && m.cells[r.Where()].inflight == 0
    && m.discovery < U64_MAX
  }

  predicate AdmitOk(cfg: Config, m: Memory, r: Request, rejected: bool) {
    && m.failed == 0
    && r.Valid(cfg.imageBytes)
    && m.serial < U64_MAX
    && (r.Mutates() && !rejected ==> m.mutation < U64_MAX)
    && cfg.Has(r.Where()) && r.Where() in m.cells
    && if m.cells[r.Where()].state == EMPTY then DiscoverOk(cfg, m, r)
       else
         var reading := ReadSlot(cfg, m.cells[r.Where()], r.Where());
         && reading.Ok? && reading.value.Occupied?
         && reading.value.state == DISCOVERED && reading.value.entry.request == r
         && m.cells[r.Where()].inflight == 0
  }

  predicate CompleteOk(cfg: Config, m: Memory, e: Entry, used: u16, error: bool) {
    && m.failed == (if error then 1 else 0)
    && cfg.Has(e.request.Where()) && e.request.Where() in m.cells && e.request.queue < |m.queues|
    && ReadSlot(cfg, m.cells[e.request.Where()], e.request.Where()) == Ok(Occupied(ACTIVE, e))
    && m.queues[e.request.queue].used == used
    && (!error ==> e.Required() <= m.published)
  }

  // ----- store lists ---------------------------------------------------------

  function InitializeStores(cfg: Config, q: nat, available: u16, used: u16): (s: seq<Store>) {
    [Descriptors(q, cfg.size), Used(q, used), Avail(q, available), Version(q, 1)]
  }

  /** The field written by the `k`-th relaxed store of a discovery, and its value. */
  function DiscoverField(cfg: Config, r: Request, d: nat, k: nat): (Field, nat) {
    match k
    case 0 => (KindCode, r.kind.Code())
    case 1 => (QueueNumber, r.queue)
    case 2 => (Head, r.head)
    case 3 => (Available, r.available)
    case 4 => (Offset, r.offset)
    case 5 => (Length, r.length)
    case 6 => (Attachment, cfg.identity.attachment)
    case 7 => (Flags, 0)
    case _ => (Discovery, d)
  }

  function DiscoverStores(cfg: Config, m: Memory, r: Request): (s: seq<Store>) {
    var d := m.discovery + 1;
    seq(9, k requires 0 <= k < 9 => var fv := DiscoverField(cfg, r, d, k); Slot(r.Where(), fv.0, fv.1))
    + [Slot(r.Where(), State, DISCOVERED), HighDiscovery(d), Avail(r.queue, Next16(r.available))]
  }

  function AdmitField(e: Entry, k: nat): (Field, nat) {
    match k
    case 0 => (Flags, if e.rejected then 1 else 0)
    case 1 => (Serial, e.serial)
    case 2 => (Mutation, e.mutation)
    case _ => (Boundary, e.boundary)
  }

  /** Admission of a head already `DISCOVERED`. */
  function AdmitStores(e: Entry): (s: seq<Store>) {
    var id := e.request.Where();
    seq(4, k requires 0 <= k < 4 => var fv := AdmitField(e, k); Slot(id, fv.0, fv.1))
    + [Slot(id, State, PREPARED), Slot(id, Counter, e.serial), Slot(id, Inflight, 1), Slot(id, State, ACTIVE),
       HighSerial(e.serial), HighMutation(if e.mutation > e.boundary then e.mutation else e.boundary)]
  }

  /** The entry an admission issues, from the header's counters. */
  function IssuedEntry(cfg: Config, m: Memory, r: Request, rejected: bool, discovery: nat): Entry {
    Entry(r, m.serial + 1, if r.Mutates() && !rejected then m.mutation + 1 else 0, m.mutation,
          cfg.identity.attachment, rejected, discovery)
  }

  /** Completion; the guest sees the used entry at the third step. */
  function CompleteStores(e: Entry, used: u16): (s: seq<Store>) {
    var id := e.request.Where();
    [Slot(id, Next, e.request.head), LastHead(e.request.queue, e.request.head), Publish(e.request.queue),
     Slot(id, Inflight, 0), Used(e.request.queue, Next16(used)), Slot(id, State, EMPTY)]
  }

  /** The guest write fails: only the two preparatory stores are made. */
  function RefusedStores(e: Entry): (s: seq<Store>) {
    [Slot(e.request.Where(), Next, e.request.head), LastHead(e.request.queue, e.request.head)]
  }

  // ----- guards agree with the model -----------------------------------------

  lemma {:induction false} ReadFound(cfg: Config, w: World, a: Model, id: Id)
    requires ModelInv(cfg, a) && Matches(cfg, w, a) && cfg.Has(id)
    ensures var reading := ReadSlot(cfg, w.m.cells[id], id);
      && reading.Ok?
      && match a.owner[id]
         case Free => reading.value == Vacant
         case Found(r, d) => reading.value == Occupied(DISCOVERED, Entry(r, 0, 0, 0, cfg.identity.attachment, false, d))
         case Admitted(e) => reading.value == Occupied(w.m.cells[id].state, e)
         case Retiring(e) => reading.value == Occupied(ACTIVE, e)
  {
    assert CellRef(cfg, w, a, id);
    assert OwnerOk(cfg, a, id, a.owner[id]);
    if HasEntry(a.owner[id]) {
      var e := a.owner[id].entry;
      assert NumberedAt(a.history, a.start, e.serial - 1);
      assert DecodeKind(e.request.kind.Code()) == Some(e.request.kind);
    } else if a.owner[id].Found? {
      assert DecodeKind(a.owner[id].request.kind.Code()) == Some(a.owner[id].request.kind);
    }
  }

  lemma {:induction false} DiscoverGuard(cfg: Config, w: World, a: Model, r: Request)
    requires Settled(cfg, w, a)
    ensures DiscoverOk(cfg, w.m, r) <==> CanFind(cfg, a, r)
  {
    SettledExact(cfg, w, a);
    if cfg.Has(r.Where()) {
      assert CellRef(cfg, w, a, r.Where());
      assert QueueRef(cfg, w, a, r.queue);
    }
  }

  /** What an admission does to the model, discovering the head first if needed. */
  predicate CanEnter(cfg: Config, a: Model, r: Request, rejected: bool) {
    && |a.history| < U64_MAX
    && (r.Mutates() && !rejected ==> a.mutation < U64_MAX)
    && (CanFind(cfg, a, r) || CanAdmit(cfg, a, r, rejected))
  }

  lemma {:induction false} AdmitGuard(cfg: Config, w: World, a: Model, r: Request, rejected: bool)
    requires Settled(cfg, w, a)
    ensures AdmitOk(cfg, w.m, r, rejected) <==> CanEnter(cfg, a, r, rejected)
  {
    SettledExact(cfg, w, a);
    DiscoverGuard(cfg, w, a, r);
    if cfg.Has(r.Where()) {
      ReadFound(cfg, w, a, r.Where());
      assert CellRef(cfg, w, a, r.Where());
      assert OwnerOk(cfg, a, r.Where(), a.owner[r.Where()]);
    }
  }

  lemma {:induction false} CompleteGuard(cfg: Config, w: World, a: Model, e: Entry, used: u16, error: bool)
    requires Settled(cfg, w, a)
    ensures CompleteOk(cfg, w.m, e, used, error) <==> CanComplete(a, e, used, error)
  {
    SettledExact(cfg, w, a);
    if cfg.Has(e.request.Where()) {
      ReadFound(cfg, w, a, e.request.Where());
      assert CellRef(cfg, w, a, e.request.Where());
      assert !Between(cfg, w, a, e.request.Where());
      assert OwnerOk(cfg, a, e.request.Where(), a.owner[e.request.Where()]);
    }
  }

  // ----- what each cut leaves ------------------------------------------------

  /** The first `k` request fields are in place. */
  ghost predicate Filled(cfg: Config, c: Cell, r: Request, d: nat, k: nat) {
    && (k > 0 ==> c.kind == r.kind.Code())
    && (k > 1 ==> c.queue == r.queue)
    && (k > 2 ==> c.head == r.head)
    && (k > 3 ==> c.available == r.available)
    && (k > 4 ==> c.offset == r.offset)
    && (k > 5 ==> c.length == r.length)
    && (k > 6 ==> c.attachment == cfg.identity.attachment)
    && (k > 7 ==> c.flags == 0)
    && (k > 8 ==> c.discovery == d)
  }

  lemma {:induction false} FilledStep(cfg: Config, c: Cell, r: Request, d: nat, k: nat)
    requires Filled(cfg, c, r, d, k) && k < 9
    ensures Filled(cfg, Put(c, DiscoverField(cfg, r, d, k).0, DiscoverField(cfg, r, d, k).1), r, d, k + 1)
  {
  }

  lemma {:induction false} HasHead(cfg: Config, w: World, a: Model, id: Id)
    requires Settled(cfg, w, a) && id in a.owner
    ensures cfg.Has(id) && id in w.m.cells && id.queue < |w.m.queues| && id.queue < |w.guest| && id.queue < |a.cursors|
  {
  }

  lemma {:induction false} DiscoverScratch(cfg: Config, w: World, a: Model, r: Request, k: nat)
    requires Settled(cfg, w, a) && CanFind(cfg, a, r) && k <= 9
    ensures Settled(cfg, Cut(w, DiscoverStores(cfg, w.m, r), k), a)
    ensures r.Where() in Cut(w, DiscoverStores(cfg, w.m, r), k).m.cells
    ensures Filled(cfg, Cut(w, DiscoverStores(cfg, w.m, r), k).m.cells[r.Where()], r, w.m.discovery + 1, k)
    decreases k
  {
    hide At, Settled, Filled, DiscoverField, ModelInv, Dead;
    var s := DiscoverStores(cfg, w.m, r);
    HasHead(cfg, w, a, r.Where());
    if k == 0 {
      assert s[..0] == [];
      NothingFilled(cfg, w.m.cells[r.Where()], r, w.m.discovery + 1);
    } else {
      DiscoverScratch(cfg, w, a, r, k - 1);
      CutStep(w, s, k - 1);
      ScratchStep(cfg, Cut(w, s, k - 1), a, r, w.m.discovery + 1, k - 1);
    }
  }

  lemma {:induction false} NothingFilled(cfg: Config, c: Cell, r: Request, d: nat)
    ensures Filled(cfg, c, r, d, 0)
  {
  }

  lemma {:induction false} ScratchStep(cfg: Config, x: World, a: Model, r: Request, d: nat, k: nat)
    requires Settled(cfg, x, a) && CanFind(cfg, a, r) && k < 9
    requires r.Where() in x.m.cells && Filled(cfg, x.m.cells[r.Where()], r, d, k)
    ensures var fv := DiscoverField(cfg, r, d, k); var y := Apply(x, Slot(r.Where(), fv.0, fv.1));
      Settled(cfg, y, a) && r.Where() in y.m.cells && Filled(cfg, y.m.cells[r.Where()], r, d, k + 1)
  {
    hide At, Settled, Filled, ModelInv;
    var fv := DiscoverField(cfg, r, d, k);
    SettledAt(cfg, x, a, r.Where());
    FilledStep(cfg, x.m.cells[r.Where()], r, d, k);
    DeadStore(cfg, x, a, r.Where(), fv.0, fv.1);
    StillFree(cfg, Apply(x, Slot(r.Where(), fv.0, fv.1)), a, r.Where());
  }

  lemma {:induction false} StillFree(cfg: Config, x: World, a: Model, id: Id)
    requires At(cfg, x, a, id) && a.owner[id].Free?
    ensures Settled(cfg, x, a)
  {
    assert CellRef(cfg, x, a, id);
    AtSettled(cfg, x, a, id);
  }

  /** A discovery is made exactly when its slot says `DISCOVERED`. */
  lemma {:induction false} DiscoverCut(cfg: Config, w: World, a: Model, r: Request, k: nat)
    requires Settled(cfg, w, a) && CanFind(cfg, a, r) && k <= 12
    ensures k <= 9 ==> Settled(cfg, Cut(w, DiscoverStores(cfg, w.m, r), k), a)
    ensures k > 9 ==> At(cfg, Cut(w, DiscoverStores(cfg, w.m, r), k), Find(a, r), r.Where())
    ensures k == 12 ==> Settled(cfg, Cut(w, DiscoverStores(cfg, w.m, r), k), Find(a, r))
  {
    hide At, Settled, ModelInv, Apply, Run, CanFind;
    if k <= 9 {
      DiscoverScratch(cfg, w, a, r, k);
    } else if k == 10 {
      DiscoverCommitted(cfg, w, a, r);
    } else if k == 11 {
      DiscoverCounted(cfg, w, a, r);
    } else {
      DiscoverDone(cfg, w, a, r);
    }
  }

  lemma {:induction false} DiscoverCommitted(cfg: Config, w: World, a: Model, r: Request)
    requires Settled(cfg, w, a) && CanFind(cfg, a, r)
    ensures At(cfg, Cut(w, DiscoverStores(cfg, w.m, r), 10), Find(a, r), r.Where())
  {
    hide At, Settled, ModelInv, DiscoverField;
    var s := DiscoverStores(cfg, w.m, r);
    DiscoverScratch(cfg, w, a, r, 9);
    SettledExact(cfg, w, a);
    CutStep(w, s, 9);
    SettledParts(cfg, Cut(w, s, 9), a, r.Where());
    FindCommit(cfg, Cut(w, s, 9), a, r);
  }

  lemma {:induction false} SettledParts(cfg: Config, x: World, a: Model, id: Id)
    requires Settled(cfg, x, a) && cfg.Has(id)
    ensures At(cfg, x, a, id)
    ensures Sized(cfg, x, a) && (forall j | cfg.Has(j) :: !Between(cfg, x, a, j))
  {
  }

  lemma {:induction false} DiscoverCounted(cfg: Config, w: World, a: Model, r: Request)
    requires Settled(cfg, w, a) && CanFind(cfg, a, r)
    ensures At(cfg, Cut(w, DiscoverStores(cfg, w.m, r), 11), Find(a, r), r.Where())
    ensures Cut(w, DiscoverStores(cfg, w.m, r), 11).m.discovery == |Find(a, r).found|
  {
    hide At, Settled, ModelInv, DiscoverField;
    var s := DiscoverStores(cfg, w.m, r);
    DiscoverCommitted(cfg, w, a, r);
    SettledExact(cfg, w, a);
    CutStep(w, s, 10);
    DiscoveryCounter(cfg, Cut(w, s, 10), Find(a, r), r.Where());
  }

  lemma {:induction false} DiscoverDone(cfg: Config, w: World, a: Model, r: Request)
    requires Settled(cfg, w, a) && CanFind(cfg, a, r)
    ensures At(cfg, Cut(w, DiscoverStores(cfg, w.m, r), 12), Find(a, r), r.Where())
    ensures Settled(cfg, Cut(w, DiscoverStores(cfg, w.m, r), 12), Find(a, r))
  {
    hide At, Settled, ModelInv, DiscoverField;
    var s := DiscoverStores(cfg, w.m, r);
    var b := Find(a, r);
    DiscoverCounted(cfg, w, a, r);
    CutStep(w, s, 11);
    AvailableCursor(cfg, Cut(w, s, 11), b, r.Where(), r.queue);
    AtShape(cfg, Cut(w, s, 11), b, r.Where());
    SettledFound(cfg, Cut(w, s, 12), b, r.Where());
  }

  lemma {:induction false} AtShape(cfg: Config, x: World, a: Model, id: Id)
    requires At(cfg, x, a, id)
    ensures cfg.Has(id) && id in x.m.cells && id in a.owner
    ensures |x.m.queues| == cfg.queues && |x.guest| == cfg.queues && |a.cursors| == cfg.queues
  {
  }

  lemma {:induction false} SettledFound(cfg: Config, x: World, a: Model, id: Id)
    requires At(cfg, x, a, id) && a.owner[id].Found?
    requires x.m.discovery == |a.found| && x.m.queues[id.queue].available == a.cursors[id.queue].available
    ensures Settled(cfg, x, a)
  {
    assert CellRef(cfg, x, a, id);
    assert OwnerOk(cfg, a, id, a.owner[id]);
    AtSettled(cfg, x, a, id);
  }

  // ----- admission cuts ------------------------------------------------------

  ghost predicate Drafted(c: Cell, e: Entry, k: nat) {
    && (k > 0 ==> c.flags == if e.rejected then 1 else 0)
    && (k > 1 ==> c.serial == e.serial)
    && (k > 2 ==> c.mutation == e.mutation)
    && (k > 3 ==> c.boundary == e.boundary)
  }

  lemma {:induction false} DraftStep(cfg: Config, x: World, a: Model, e: Entry, k: nat)
    requires Settled(cfg, x, a) && cfg.Has(e.request.Where()) && a.owner[e.request.Where()].Found? && k < 4
    requires Drafted(x.m.cells[e.request.Where()], e, k)
    ensures var fv := AdmitField(e, k); var y := Apply(x, Slot(e.request.Where(), fv.0, fv.1));
      Settled(cfg, y, a) && Sized(cfg, y, a) && Drafted(y.m.cells[e.request.Where()], e, k + 1)
  {
    hide At, Settled, ModelInv;
    var id := e.request.Where();
    var fv := AdmitField(e, k);
    SettledParts(cfg, x, a, id);
    DeadStore(cfg, x, a, id, fv.0, fv.1);
    KeepsFound(cfg, x, a, id, fv.0, fv.1);
  }

  lemma {:induction false} KeepsFound(cfg: Config, x: World, a: Model, id: Id, f: Field, v: nat)
    requires Settled(cfg, x, a) && cfg.Has(id) && a.owner[id].Found?
    requires Dead(x.m.cells[id], a.owner[id], f, v)
    requires At(cfg, Apply(x, Slot(id, f, v)), a, id)
    ensures Settled(cfg, Apply(x, Slot(id, f, v)), a)
    ensures Sized(cfg, Apply(x, Slot(id, f, v)), a)
  {
    SettledExact(cfg, x, a);
    assert OwnerOk(cfg, a, id, a.owner[id]);
    SettledFound(cfg, Apply(x, Slot(id, f, v)), a, id);
  }

  /** The head `e` is admitted from holds exactly its discovery. */
  ghost predicate Admits(cfg: Config, a: Model, e: Entry) {
    && e.request.Where() in a.owner && a.owner[e.request.Where()].Found?
    && CanAdmit(cfg, a, e.request, e.rejected)
    && e == NewEntry(cfg, a, e.request, e.rejected, a.owner[e.request.Where()].discovery)
  }

  lemma {:induction false} AdmitScratch(cfg: Config, w: World, a: Model, e: Entry, k: nat)
    requires Settled(cfg, w, a) && Admits(cfg, a, e) && k <= 4
    ensures Settled(cfg, Cut(w, AdmitStores(e), k), a)
    ensures e.request.Where() in Cut(w, AdmitStores(e), k).m.cells
    ensures Drafted(Cut(w, AdmitStores(e), k).m.cells[e.request.Where()], e, k)
    decreases k
  {
    hide At, Settled, ModelInv, AdmitField;
    var s := AdmitStores(e);
    HasHead(cfg, w, a, e.request.Where());
    if k == 0 {
      assert s[..0] == [];
    } else {
      AdmitScratch(cfg, w, a, e, k - 1);
      CutStep(w, s, k - 1);
      DraftStep(cfg, Cut(w, s, k - 1), a, e, k - 1);
    }
  }

  /** An admission is made exactly when its slot says `PREPARED`. */
  lemma {:induction false} AdmitCut(cfg: Config, w: World, a: Model, e: Entry, k: nat)
    requires Settled(cfg, w, a) && Admits(cfg, a, e) && k <= 10
    ensures k <= 4 ==> Settled(cfg, Cut(w, AdmitStores(e), k), a)
    ensures k > 4 ==> At(cfg, Cut(w, AdmitStores(e), k), Admit(cfg, a, e.request, e.rejected), e.request.Where())
    ensures k == 10 ==> Settled(cfg, Cut(w, AdmitStores(e), k), Admit(cfg, a, e.request, e.rejected))
  {
    hide At, Settled, ModelInv, Apply, Run;
    if k <= 4 {
      AdmitScratch(cfg, w, a, e, k);
    } else if k == 5 {
      AdmitPrepared(cfg, w, a, e);
    } else if k <= 8 {
      AdmitActive(cfg, w, a, e, k);
    } else {
      AdmitCounted(cfg, w, a, e, k);
    }
  }

  lemma {:induction false} AdmitPrepared(cfg: Config, w: World, a: Model, e: Entry)
    requires Settled(cfg, w, a) && Admits(cfg, a, e)
    ensures At(cfg, Cut(w, AdmitStores(e), 5), Admit(cfg, a, e.request, e.rejected), e.request.Where())
    ensures Cut(w, AdmitStores(e), 5).m.cells[e.request.Where()].inflight == 0
  {
    hide At, Settled, ModelInv, AdmitField;
    var s := AdmitStores(e);
    var id := e.request.Where();
    AdmitScratch(cfg, w, a, e, 4);
    HasHead(cfg, w, a, id);
    CutStep(w, s, 4);
    SettledParts(cfg, Cut(w, s, 4), a, id);
    FoundCell(cfg, Cut(w, s, 4), a, id);
    AdmitCommit(cfg, Cut(w, s, 4), a, e.request, e.rejected);
  }

  lemma {:induction false} FoundCell(cfg: Config, x: World, a: Model, id: Id)
    requires At(cfg, x, a, id) && a.owner[id].Found?
    ensures var c := x.m.cells[id];
      && c.inflight == 0 && HoldsRequest(c, a.owner[id].request)
      && c.discovery == a.owner[id].discovery && c.attachment == cfg.identity.attachment
  {
    assert CellRef(cfg, x, a, id);
  }

  lemma {:induction false} AdmitActive(cfg: Config, w: World, a: Model, e: Entry, k: nat)
    requires Settled(cfg, w, a) && Admits(cfg, a, e) && 5 <= k <= 8
    ensures At(cfg, Cut(w, AdmitStores(e), k), Admit(cfg, a, e.request, e.rejected), e.request.Where())
    ensures k == 8 ==> Cut(w, AdmitStores(e), k).m.cells[e.request.Where()].state == ACTIVE
  {
    hide At, Settled, ModelInv, AdmitField;
    var s := AdmitStores(e);
    var id := e.request.Where();
    var b := Admit(cfg, a, e.request, e.rejected);
    AdmitPrepared(cfg, w, a, e);
    AtShape(cfg, Cut(w, s, 5), b, id);
    if k > 5 {
      CutStep(w, s, 5);
      DeadStore(cfg, Cut(w, s, 5), b, id, Counter, e.serial);
    }
    if k > 6 {
      CutStep(w, s, 6);
      InflightOn(cfg, Cut(w, s, 6), b, id);
    }
    if k > 7 {
      CutStep(w, s, 7);
      Activated(cfg, Cut(w, s, 7), b, id);
    }
  }

  lemma {:induction false} AdmitCounted(cfg: Config, w: World, a: Model, e: Entry, k: nat)
    requires Settled(cfg, w, a) && Admits(cfg, a, e) && 9 <= k <= 10
    ensures At(cfg, Cut(w, AdmitStores(e), k), Admit(cfg, a, e.request, e.rejected), e.request.Where())
    ensures k == 10 ==> Settled(cfg, Cut(w, AdmitStores(e), k), Admit(cfg, a, e.request, e.rejected))
  {
    hide At, Settled, ModelInv, AdmitField;
    var s := AdmitStores(e);
    var id := e.request.Where();
    var b := Admit(cfg, a, e.request, e.rejected);
    AdmitActive(cfg, w, a, e, 8);
    AtShape(cfg, Cut(w, s, 8), b, id);
    CutStep(w, s, 8);
    SerialCounter(cfg, Cut(w, s, 8), b, id);
    if k == 10 {
      CutStep(w, s, 9);
      MutationCounter(cfg, Cut(w, s, 9), b, id);
      SettledAdmitted(cfg, Cut(w, s, 10), b, id);
    }
  }

  lemma {:induction false} SettledAdmitted(cfg: Config, x: World, a: Model, id: Id)
    requires At(cfg, x, a, id) && a.owner[id].Admitted? && x.m.cells[id].state == ACTIVE
    requires x.m.serial == |a.history| && x.m.mutation == a.mutation
    ensures Settled(cfg, x, a)
  {
    assert OwnerOk(cfg, a, id, a.owner[id]);
    AtSettled(cfg, x, a, id);
  }

  // ----- completion cuts -----------------------------------------------------

  lemma {:induction false} RefusedCut(cfg: Config, w: World, a: Model, e: Entry, k: nat)
    requires Settled(cfg, w, a) && k <= 2
    requires e.request.Where() in a.owner && a.owner[e.request.Where()] == Admitted(e)
    ensures cfg.Has(e.request.Where())
    ensures Settled(cfg, Cut(w, RefusedStores(e), k), a)
    ensures k == 2 ==> e.request.queue < |Cut(w, RefusedStores(e), k).m.queues|
                       && Cut(w, RefusedStores(e), k).m.queues[e.request.queue].lastHead == e.request.head
  {
    hide At, Settled, ModelInv;
    var s := RefusedStores(e);
    var id := e.request.Where();
    HasHead(cfg, w, a, id);
    assert s[..0] == [];
    if k > 0 {
      CutStep(w, s, 0);
      NextStep(cfg, w, a, e);
    }
    if k > 1 {
      CutStep(w, s, 1);
      HasHead(cfg, Cut(w, s, 1), a, id);
      NameStep(cfg, Cut(w, s, 1), a, e);
    }
  }

  lemma {:induction false} NextStep(cfg: Config, x: World, a: Model, e: Entry)
    requires Settled(cfg, x, a) && cfg.Has(e.request.Where()) && a.owner[e.request.Where()] == Admitted(e)
    ensures Settled(cfg, Apply(x, Slot(e.request.Where(), Next, e.request.head)), a)
  {
    hide At, Settled, ModelInv;
    var id := e.request.Where();
    SettledParts(cfg, x, a, id);
    SettledExact(cfg, x, a);
    ActiveCell(cfg, x, a, id);
    DeadStore(cfg, x, a, id, Next, e.request.head);
    SettledAdmitted(cfg, Apply(x, Slot(id, Next, e.request.head)), a, id);
  }

  lemma {:induction false} NameStep(cfg: Config, x: World, a: Model, e: Entry)
    requires Settled(cfg, x, a) && cfg.Has(e.request.Where()) && a.owner[e.request.Where()] == Admitted(e)
    ensures Settled(cfg, Apply(x, LastHead(e.request.queue, e.request.head)), a)
  {
    hide At, Settled, ModelInv;
    var id := e.request.Where();
    SettledParts(cfg, x, a, id);
    SettledExact(cfg, x, a);
    ActiveCell(cfg, x, a, id);
    NameHead(cfg, x, a, id);
    SettledAdmitted(cfg, Apply(x, LastHead(id.queue, id.head)), a, id);
  }

  lemma {:induction false} ActiveCell(cfg: Config, x: World, a: Model, id: Id)
    requires Settled(cfg, x, a) && cfg.Has(id) && a.owner[id].Admitted?
    ensures x.m.cells[id].state == ACTIVE && x.m.cells[id].inflight == 1
    ensures x.m.cells[id].counter == a.owner[id].entry.serial
  {
    assert CellRef(cfg, x, a, id);
    assert !Between(cfg, x, a, id);
  }

  /** A completion happens exactly when the guest's used index moves. */
  lemma {:induction false} CompleteCut(cfg: Config, w: World, a: Model, e: Entry, used: u16, error: bool, k: nat)
    requires Settled(cfg, w, a) && CanComplete(a, e, used, error) && k <= 6
    ensures cfg.Has(e.request.Where())
    ensures k <= 2 ==> Settled(cfg, Cut(w, CompleteStores(e, used), k), a)
    ensures 2 < k < 6 ==> At(cfg, Cut(w, CompleteStores(e, used), k), Use(a, e, !error), e.request.Where())
    ensures k == 6 ==> Settled(cfg, Cut(w, CompleteStores(e, used), k), Release(Use(a, e, !error), e.request.Where()))
  {
    hide At, Settled, ModelInv;
    if k <= 2 {
      RefusedCut(cfg, w, a, e, k);
      assert CompleteStores(e, used)[..k] == RefusedStores(e)[..k];
    } else {
      CompleteRetire(cfg, w, a, e, used, error, k);
    }
  }

  lemma {:induction false} CompletePublished(cfg: Config, w: World, a: Model, e: Entry, used: u16, error: bool)
    requires Settled(cfg, w, a) && CanComplete(a, e, used, error)
    ensures At(cfg, Cut(w, CompleteStores(e, used), 3), Use(a, e, !error), e.request.Where())
  {
    hide At, Settled, ModelInv;
    var s := CompleteStores(e, used);
    RefusedCut(cfg, w, a, e, 2);
    assert s[..2] == RefusedStores(e)[..2];
    CutStep(w, s, 2);
    SettledParts(cfg, Cut(w, s, 2), a, e.request.Where());
    UseCommit(cfg, Cut(w, s, 2), a, e, used, error);
  }

  lemma {:induction false} CompleteRetire(cfg: Config, w: World, a: Model, e: Entry, used: u16, error: bool, k: nat)
    requires Settled(cfg, w, a) && CanComplete(a, e, used, error) && 2 < k <= 6
    ensures cfg.Has(e.request.Where())
    ensures 2 < k < 6 ==> At(cfg, Cut(w, CompleteStores(e, used), k), Use(a, e, !error), e.request.Where())
    ensures k == 6 ==> Settled(cfg, Cut(w, CompleteStores(e, used), k), Release(Use(a, e, !error), e.request.Where()))
  {
    hide At, Settled, ModelInv;
    var s := CompleteStores(e, used);
    var id := e.request.Where();
    var b := Use(a, e, !error);
    CompletePublished(cfg, w, a, e, used, error);
    AtShape(cfg, Cut(w, s, 3), b, id);
    if k > 3 {
      CutStep(w, s, 3);
      InflightOff(cfg, Cut(w, s, 3), b, id);
    }
    if k > 4 {
      CutStep(w, s, 4);
      UsedCursor(cfg, Cut(w, s, 4), b, id);
    }
    if k > 5 {
      CutStep(w, s, 5);
      ReleaseCommit(cfg, Cut(w, s, 5), b, id);
    }
  }

  // ----- queue setup ---------------------------------------------------------

  /** A queue being set up is not live until its version says so. */
  lemma {:induction false} InitializeCut(cfg: Config, w: World, a: Model, q: nat, available: u16, k: nat)
    requires Settled(cfg, w, a) && InitializeOk(cfg, w.m, q) && k <= 4
    ensures k < 4 ==> Settled(cfg, Cut(w, InitializeStores(cfg, q, available, w.guest[q]), k), a)
    ensures k == 4 ==> Settled(cfg, Cut(w, InitializeStores(cfg, q, available, w.guest[q]), k),
      Rebase(a, q, available, w.guest[q]))
  {
    var s := InitializeStores(cfg, q, available, w.guest[q]);
    DormantFacts(cfg, w, a, q);
    hide At, Settled, ModelInv;
    assert s[..0] == [];
    if k > 0 { CutStep(w, s, 0); }
    if k > 1 { CutStep(w, s, 1); }
    if k > 2 { CutStep(w, s, 2); }
    if k < 4 {
      DormantQueue(cfg, w, Cut(w, s, k), a, q);
    } else {
      CutStep(w, s, 3);
      assert w.guest[q := w.guest[q]] == w.guest;
      NewQueue(cfg, w, Cut(w, s, 4), a, q, available, w.guest[q]);
    }
  }

  lemma {:induction false} DormantFacts(cfg: Config, w: World, a: Model, q: nat)
    requires Settled(cfg, w, a) && InitializeOk(cfg, w.m, q)
    ensures |w.m.queues| == cfg.queues && |w.guest| == cfg.queues && |a.cursors| == cfg.queues
    ensures var s := w.m.queues[q];
      s.features == 0 && s.lastHead < cfg.size && s.available < 0x1_0000 &&
        (s.descriptors == 0 || s.descriptors == cfg.size)
    ensures !a.cursors[q].live
    ensures forall id | id in a.owner && id.queue == q :: a.owner[id].Free?
  {
    assert QueueRef(cfg, w, a, q);
    forall id | id in a.owner && id.queue == q ensures a.owner[id].Free? {
      assert OwnerOk(cfg, a, id, a.owner[id]);
    }
  }

  lemma {:induction false} DormantQueue(cfg: Config, w: World, x: World, a: Model, q: nat)
    requires Settled(cfg, w, a) && q < cfg.queues && !a.cursors[q].live
    requires |x.m.queues| == cfg.queues
    requires x == w.(m := w.m.(queues := w.m.queues[q := x.m.queues[q]]))
    requires var s := x.m.queues[q];
      s.features == 0 && s.lastHead < cfg.size && s.available < 0x1_0000 && s.version == 0
      && (s.descriptors == 0 || s.descriptors == cfg.size)
    ensures Settled(cfg, x, a)
  {
    forall j | cfg.Has(j) ensures CellRef(cfg, x, a, j) && !Between(cfg, x, a, j) {
      assert CellRef(cfg, w, a, j);
      assert !Between(cfg, w, a, j);
      assert OwnerOk(cfg, a, j, a.owner[j]);
    }
    forall p | 0 <= p < cfg.queues ensures QueueRef(cfg, x, a, p) {
      assert QueueRef(cfg, w, a, p);
    }
  }

  /** A queue whose heads are all free takes new cursors. */
  lemma {:induction false} NewQueue(cfg: Config, w: World, x: World, a: Model, q: nat, available: u16, used: u16)
    requires Settled(cfg, w, a) && q < cfg.queues
    requires forall id | id in a.owner && id.queue == q :: a.owner[id].Free?
    requires |x.m.queues| == cfg.queues && |x.guest| == cfg.queues
    requires x == World(w.m.(queues := w.m.queues[q := x.m.queues[q]]), w.guest[q := used])
    requires var s := x.m.queues[q];
      s.features == 0 && s.lastHead < cfg.size && s.available == available && s.used == used
      && s.version == 1 && s.descriptors == cfg.size
    ensures Settled(cfg, x, Rebase(a, q, available, used))
  {
    RebaseInv(cfg, a, q, available, used);
    SettledExact(cfg, w, a);
    NewQueueMatches(cfg, w, x, a, q, available, used);
  }

  lemma {:induction false} NewQueueMatches(cfg: Config, w: World, x: World, a: Model, q: nat, available: u16, used: u16)
    requires Matches(cfg, w, a) && q < cfg.queues
    requires forall j | cfg.Has(j) :: !Between(cfg, w, a, j)
    requires forall id | id in a.owner && id.queue == q :: a.owner[id].Free?
    requires |x.m.queues| == cfg.queues && |x.guest| == cfg.queues
    requires x == World(w.m.(queues := w.m.queues[q := x.m.queues[q]]), w.guest[q := used])
    requires var s := x.m.queues[q];
      s.features == 0 && s.lastHead < cfg.size && s.available == available && s.used == used
      && s.version == 1 && s.descriptors == cfg.size
    ensures Matches(cfg, x, Rebase(a, q, available, used))
    ensures forall j | cfg.Has(j) :: !Between(cfg, x, Rebase(a, q, available, used), j)
  {
    var b := Rebase(a, q, available, used);
    forall j | cfg.Has(j) ensures CellRef(cfg, x, b, j) && !Between(cfg, x, b, j) {
      assert CellRef(cfg, w, a, j);
      assert !Between(cfg, w, a, j);
    }
    forall p | 0 <= p < cfg.queues ensures QueueRef(cfg, x, b, p) {
      assert QueueRef(cfg, w, a, p);
    }
  }
}
