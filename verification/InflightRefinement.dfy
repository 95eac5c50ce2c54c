/**
 * How the mapping stands for the model at every gap between two stores. The
 * relation does not mention any operation in progress: it is what a replacement
 * daemon may rely on. One lemma per kind of store shows that it is kept.
 */
module InflightRefinement {
  import opened Units
  import opened InflightLayout
  import opened InflightModel

  ghost predicate HoldsRequest(c: Cell, r: Request) {
    && c.kind == r.kind.Code() && c.queue == r.queue && c.head == r.head
    && c.available == r.available && c.offset == r.offset && c.length == r.length
  }

  ghost predicate HoldsEntry(c: Cell, e: Entry) {
    && HoldsRequest(c, e.request)
    && c.serial == e.serial && c.mutation == e.mutation && c.boundary == e.boundary
    && c.attachment == e.attachment && c.discovery == e.discovery
    && c.flags == if e.rejected then 1 else 0
  }

  ghost predicate Sized(cfg: Config, w: World, a: Model) {
    && Shaped(cfg, w.m)
    && |w.guest| == cfg.queues
    && |a.cursors| == cfg.queues
    && (forall id :: id in a.owner <==> cfg.Has(id))
  }

  /** A slot and its descriptor, given who owns the head. */
  ghost predicate CellRef(cfg: Config, w: World, a: Model, id: Id)
    requires Sized(cfg, w, a) && cfg.Has(id)
  {
    var c := w.m.cells[id];
    var q := w.m.queues[id.queue];
    && c.flags <= 1 && c.reserved == 0
    && match a.owner[id]
       case Free => c.state == EMPTY && c.inflight == 0
       case Found(r, d) =>
         && c.state == DISCOVERED && c.inflight == 0 && HoldsRequest(c, r)
         && c.discovery == d && c.attachment == cfg.identity.attachment
       case Admitted(e) =>
         && HoldsEntry(c, e) && e.boundary <= w.m.mutation && c.inflight <= 1
         && (c.state == PREPARED || (c.state == ACTIVE && c.inflight == 1))
         && (c.inflight == 1 ==> c.counter == e.serial)
       case Retiring(e) =>
         && HoldsEntry(c, e) && e.boundary <= w.m.mutation
         && c.state == ACTIVE && c.counter == e.serial && c.inflight <= 1
         && (c.inflight == 1 ==> w.guest[id.queue] == Next16(q.used) && q.lastHead == id.head)
  }

  /** The newest discovery is still waiting and took the given cursor. */
  ghost predicate NewestFound(a: Model) {
    && |a.found| > 0
    && var r := a.found[|a.found| - 1];
       r.Where() in a.owner && a.owner[r.Where()] == Found(r, |a.found|)
  }

  ghost predicate NewestAdmitted(a: Model) {
    && |a.history| > 0
    && var e := a.history[|a.history| - 1];
       e.request.Where() in a.owner && a.owner[e.request.Where()] == Admitted(e)
  }

  ghost predicate QueueRef(cfg: Config, w: World, a: Model, q: nat)
    requires Sized(cfg, w, a) && q < cfg.queues
  {
    var k := a.cursors[q];
    var s := w.m.queues[q];
    && s.features == 0 && s.lastHead < cfg.size && s.available < 0x1_0000
    && (!k.live ==> s.version == 0 && (s.descriptors == 0 || s.descriptors == cfg.size))
    && (k.live ==>
          && s.version == 1 && s.descriptors == cfg.size
          && w.guest[q] == k.used
          && (k.used == s.used || (k.used == Next16(s.used) && a.owner[Id(q, s.lastHead)].Retiring?))
          && (s.available == k.available ||
              (NewestFound(a) && a.found[|a.found| - 1].queue == q && a.found[|a.found| - 1].available == s.available)))
  }

  ghost predicate HeaderRef(cfg: Config, w: World, a: Model) {
    var m := w.m;
    && m.identity == cfg.identity
    && m.failed == (if a.failed then 1 else 0)
    && (m.discovery == |a.found| || (m.discovery + 1 == |a.found| && NewestFound(a)))
    && (m.serial == |a.history| || (m.serial + 1 == |a.history| && NewestAdmitted(a)))
    && (m.mutation == a.mutation ||
        (m.mutation + 1 == a.mutation && NewestAdmitted(a) && a.history[|a.history| - 1].mutation == a.mutation))
    && m.published == a.published <= m.mutation
  }

  /** A head caught between two phases, or ahead of the header's counters. */
  ghost predicate Between(cfg: Config, w: World, a: Model, id: Id)
    requires Sized(cfg, w, a) && cfg.Has(id)
  {
    var o := a.owner[id];
    || o.Retiring?
    || w.m.cells[id].state == PREPARED
    || (o.Found? && (o.discovery > w.m.discovery ||
                     (o.discovery == |a.found| && w.m.queues[id.queue].available != a.cursors[id.queue].available)))
    || (o.Admitted? && (o.entry.serial > w.m.serial || o.entry.mutation > w.m.mutation))
  }

  ghost predicate Matches(cfg: Config, w: World, a: Model) {
    && Sized(cfg, w, a)
    && HeaderRef(cfg, w, a)
    && (forall q | 0 <= q < cfg.queues :: QueueRef(cfg, w, a, q))
    && (forall id | cfg.Has(id) :: CellRef(cfg, w, a, id))
  }

  /** Every head but `id` is settled. */
  ghost predicate Only(cfg: Config, w: World, a: Model, id: Id)
    requires Sized(cfg, w, a)
  {
    forall j | cfg.Has(j) && Between(cfg, w, a, j) :: j == id
  }

  /** What holds at every gap between stores. */
  ghost predicate Recoverable(cfg: Config, w: World, a: Model) {
    && ModelInv(cfg, a)
    && Matches(cfg, w, a)
    && exists id: Id :: Only(cfg, w, a, id)
  }

  /** What holds between operations. */
  ghost predicate Settled(cfg: Config, w: World, a: Model) {
    && ModelInv(cfg, a)
    && Matches(cfg, w, a)
    && (forall j | cfg.Has(j) :: !Between(cfg, w, a, j))
  }

  /** As `Recoverable`, naming the head in progress. */
  ghost predicate At(cfg: Config, w: World, a: Model, id: Id) {
    && ModelInv(cfg, a)
    && Matches(cfg, w, a)
    && cfg.Has(id)
    && Only(cfg, w, a, id)
  }

  lemma {:induction false} SettledAt(cfg: Config, w: World, a: Model, id: Id)
    requires Settled(cfg, w, a) && cfg.Has(id)
    ensures At(cfg, w, a, id)
  {
  }

  lemma {:induction false} AtSettled(cfg: Config, w: World, a: Model, id: Id)
    requires At(cfg, w, a, id) && !Between(cfg, w, a, id)
    ensures Settled(cfg, w, a)
  {
  }

  /** A settled mapping agrees with the model's numbers exactly. */
  lemma {:induction false} SettledExact(cfg: Config, w: World, a: Model)
    requires Settled(cfg, w, a)
    ensures w.m.discovery == |a.found| && w.m.serial == |a.history| && w.m.mutation == a.mutation
    ensures NoneRetiring(a)
    ensures forall q | 0 <= q < cfg.queues && a.cursors[q].live ::
              w.m.queues[q].available == a.cursors[q].available && w.m.queues[q].used == a.cursors[q].used
    ensures forall id | cfg.Has(id) :: w.m.cells[id].state == EMPTY <==> a.owner[id].Free?
  {
    forall id | cfg.Has(id) ensures !a.owner[id].Retiring? && (w.m.cells[id].state == EMPTY <==> a.owner[id].Free?) {
      assert !Between(cfg, w, a, id);
      assert CellRef(cfg, w, a, id);
    }
    if |a.found| > 0 && NewestFound(a) {
      assert !Between(cfg, w, a, a.found[|a.found| - 1].Where());
    }
    if |a.history| > 0 && NewestAdmitted(a) {
      assert NumberedAt(a.history, a.start, |a.history| - 1);
      assert !Between(cfg, w, a, a.history[|a.history| - 1].request.Where());
    }
    forall q | 0 <= q < cfg.queues && a.cursors[q].live
      ensures w.m.queues[q].available == a.cursors[q].available && w.m.queues[q].used == a.cursors[q].used
    {
      assert QueueRef(cfg, w, a, q);
    }
  }

  // ----- stores that commit nothing ------------------------------------------

  /** Fields a head's owner gives no meaning to. */
  predicate Dead(c: Cell, o: Owner, f: Field, v: nat) {
    && (f.Flags? ==> v <= 1)
    && match o
       case Free => !f.State? && !f.Inflight?
       case Found(_, _) => f.Flags? || f.Serial? || f.Mutation? || f.Boundary? || f.Counter? || f.Next?
       case Admitted(_) => f.Next? || (f.Counter? && c.inflight == 0)
       case Retiring(_) => f.Next?
  }

  lemma {:induction false} DeadStore(cfg: Config, w: World, a: Model, id: Id, f: Field, v: nat)
    requires At(cfg, w, a, id) && Dead(w.m.cells[id], a.owner[id], f, v)
    ensures At(cfg, Apply(w, Slot(id, f, v)), a, id)
  {
    DeadStoreMatches(cfg, w, a, id, f, v);
  }

  lemma {:induction false} DeadStoreMatches(cfg: Config, w: World, a: Model, id: Id, f: Field, v: nat)
    requires Matches(cfg, w, a) && cfg.Has(id) && Only(cfg, w, a, id) && Dead(w.m.cells[id], a.owner[id], f, v)
    ensures Matches(cfg, Apply(w, Slot(id, f, v)), a)
    ensures Only(cfg, Apply(w, Slot(id, f, v)), a, id)
  {
    hide CellRef, QueueRef, Between;
    var x := Apply(w, Slot(id, f, v));
    forall j | cfg.Has(j) ensures CellRef(cfg, x, a, j) && (Between(cfg, x, a, j) ==> j == id) {
      DeadCell(cfg, w, a, id, f, v, j);
    }
    forall q | 0 <= q < cfg.queues ensures QueueRef(cfg, x, a, q) {
      DeadQueue(cfg, w, a, id, f, v, q);
    }
  }

  lemma {:induction false} DeadCell(cfg: Config, w: World, a: Model, id: Id, f: Field, v: nat, j: Id)
    requires Sized(cfg, w, a) && cfg.Has(id) && cfg.Has(j) && CellRef(cfg, w, a, j)
    requires Dead(w.m.cells[id], a.owner[id], f, v)
    ensures Sized(cfg, Apply(w, Slot(id, f, v)), a) && CellRef(cfg, Apply(w, Slot(id, f, v)), a, j)
    ensures Between(cfg, Apply(w, Slot(id, f, v)), a, j) <==> Between(cfg, w, a, j)
  {
  }

  lemma {:induction false} DeadQueue(cfg: Config, w: World, a: Model, id: Id, f: Field, v: nat, q: nat)
    requires Sized(cfg, w, a) && cfg.Has(id) && q < cfg.queues && QueueRef(cfg, w, a, q)
    ensures Sized(cfg, Apply(w, Slot(id, f, v)), a) && QueueRef(cfg, Apply(w, Slot(id, f, v)), a, q)
  {
  }

  // ----- discovery -----------------------------------------------------------

  /** `DISCOVERED` commits a discovery. */
  lemma {:induction false} FindCommit(cfg: Config, w: World, a: Model, r: Request)
    requires At(cfg, w, a, r.Where()) && CanFind(cfg, a, r)
    requires forall j | cfg.Has(j) :: !Between(cfg, w, a, j)
    requires HoldsRequest(w.m.cells[r.Where()], r)
    requires w.m.cells[r.Where()].attachment == cfg.identity.attachment
    requires w.m.cells[r.Where()].discovery == |a.found| + 1
    ensures At(cfg, Apply(w, Slot(r.Where(), State, DISCOVERED)), Find(a, r), r.Where())
  {
    SettledExact(cfg, w, a);
    FindInv(cfg, a, r);
    forall j | cfg.Has(j) && a.owner[j].Found? ensures a.owner[j].discovery <= |a.found| {
      assert OwnerOk(cfg, a, j, a.owner[j]);
    }
    FindMatches(cfg, w, a, r);
  }

  lemma {:induction false} FindMatches(cfg: Config, w: World, a: Model, r: Request)
    requires Matches(cfg, w, a) && CanFind(cfg, a, r)
    requires forall j | cfg.Has(j) :: !Between(cfg, w, a, j)
    requires forall j | cfg.Has(j) && a.owner[j].Found? :: a.owner[j].discovery <= |a.found|
    requires w.m.mutation == a.mutation && w.m.serial == |a.history| && w.m.discovery == |a.found|
    requires forall q | 0 <= q < cfg.queues && a.cursors[q].live :: w.m.queues[q].available == a.cursors[q].available
    requires HoldsRequest(w.m.cells[r.Where()], r)
    requires w.m.cells[r.Where()].attachment == cfg.identity.attachment
    requires w.m.cells[r.Where()].discovery == |a.found| + 1
    ensures Matches(cfg, Apply(w, Slot(r.Where(), State, DISCOVERED)), Find(a, r))
    ensures Only(cfg, Apply(w, Slot(r.Where(), State, DISCOVERED)), Find(a, r), r.Where())
  {
    var id := r.Where();
    var x := Apply(w, Slot(id, State, DISCOVERED));
    var b := Find(a, r);
    forall j | cfg.Has(j) ensures CellRef(cfg, x, b, j) && (Between(cfg, x, b, j) ==> j == id) {
      assert CellRef(cfg, w, a, j);
      assert !Between(cfg, w, a, j);
    }
    forall q | 0 <= q < cfg.queues ensures QueueRef(cfg, x, b, q) {
      assert QueueRef(cfg, w, a, q);
    }
  }

  lemma {:induction false} DiscoveryCounter(cfg: Config, w: World, a: Model, id: Id)
    requires At(cfg, w, a, id)
    ensures At(cfg, Apply(w, HighDiscovery(|a.found|)), a, id)
  {
    DiscoveryCounterMatches(cfg, w, a, id);
  }

  lemma {:induction false} DiscoveryCounterMatches(cfg: Config, w: World, a: Model, id: Id)
    requires Matches(cfg, w, a) && cfg.Has(id) && Only(cfg, w, a, id)
    ensures Matches(cfg, Apply(w, HighDiscovery(|a.found|)), a)
    ensures Only(cfg, Apply(w, HighDiscovery(|a.found|)), a, id)
  {
    var x := Apply(w, HighDiscovery(|a.found|));
    forall j | cfg.Has(j) ensures CellRef(cfg, x, a, j) && (Between(cfg, x, a, j) ==> j == id) {
      assert CellRef(cfg, w, a, j);
      assert Between(cfg, w, a, j) ==> j == id;
    }
    forall q | 0 <= q < cfg.queues ensures QueueRef(cfg, x, a, q) {
      assert QueueRef(cfg, w, a, q);
    }
  }

  /** The available cursor may always be brought to where the model has it. */
  lemma {:induction false} AvailableCursor(cfg: Config, w: World, a: Model, id: Id, p: nat)
    requires At(cfg, w, a, id) && p < cfg.queues && a.cursors[p].live
    ensures At(cfg, Apply(w, Avail(p, a.cursors[p].available)), a, id)
  {
    AvailableCursorMatches(cfg, w, a, id, p);
  }

  lemma {:induction false} AvailableCursorMatches(cfg: Config, w: World, a: Model, id: Id, p: nat)
    requires Matches(cfg, w, a) && Only(cfg, w, a, id) && p < cfg.queues && a.cursors[p].live
    ensures Matches(cfg, Apply(w, Avail(p, a.cursors[p].available)), a)
    ensures Only(cfg, Apply(w, Avail(p, a.cursors[p].available)), a, id)
  {
    var x := Apply(w, Avail(p, a.cursors[p].available));
    forall j | cfg.Has(j) ensures CellRef(cfg, x, a, j) && (Between(cfg, x, a, j) ==> j == id) {
      assert CellRef(cfg, w, a, j);
      assert Between(cfg, w, a, j) ==> j == id;
    }
    forall q | 0 <= q < cfg.queues ensures QueueRef(cfg, x, a, q) {
      assert QueueRef(cfg, w, a, q);
    }
  }

  // ----- admission -----------------------------------------------------------

  /** `PREPARED` commits an admission: the serial and mutation are issued. */
  lemma {:induction false} AdmitCommit(cfg: Config, w: World, a: Model, r: Request, rejected: bool)
    requires At(cfg, w, a, r.Where()) && CanAdmit(cfg, a, r, rejected)
    requires forall j | cfg.Has(j) :: !Between(cfg, w, a, j)
    requires HoldsEntry(w.m.cells[r.Where()], NewEntry(cfg, a, r, rejected, a.owner[r.Where()].discovery))
    ensures At(cfg, Apply(w, Slot(r.Where(), State, PREPARED)), Admit(cfg, a, r, rejected), r.Where())
  {
    SettledExact(cfg, w, a);
    AdmitInv(cfg, a, r, rejected);
    AdmitMatches(cfg, w, a, r, rejected);
  }

  lemma {:induction false} AdmitMatches(cfg: Config, w: World, a: Model, r: Request, rejected: bool)
    requires Matches(cfg, w, a) && cfg.Has(r.Where()) && CanAdmit(cfg, a, r, rejected)
    requires forall j | cfg.Has(j) :: !Between(cfg, w, a, j)
    requires w.m.mutation == a.mutation && w.m.serial == |a.history| && w.m.discovery == |a.found|
    requires forall q | 0 <= q < cfg.queues && a.cursors[q].live :: w.m.queues[q].available == a.cursors[q].available
    requires NoneRetiring(a)
    requires HoldsEntry(w.m.cells[r.Where()], NewEntry(cfg, a, r, rejected, a.owner[r.Where()].discovery))
    ensures Matches(cfg, Apply(w, Slot(r.Where(), State, PREPARED)), Admit(cfg, a, r, rejected))
    ensures Only(cfg, Apply(w, Slot(r.Where(), State, PREPARED)), Admit(cfg, a, r, rejected), r.Where())
  {
    var id := r.Where();
    var x := Apply(w, Slot(id, State, PREPARED));
    var b := Admit(cfg, a, r, rejected);
    assert CellRef(cfg, w, a, id);
    forall j | cfg.Has(j) ensures CellRef(cfg, x, b, j) && (Between(cfg, x, b, j) ==> j == id) {
      assert CellRef(cfg, w, a, j);
      assert !Between(cfg, w, a, j);
    }
    forall q | 0 <= q < cfg.queues ensures QueueRef(cfg, x, b, q) {
      assert QueueRef(cfg, w, a, q);
    }
  }

  /** Marking the standard descriptor in flight. */
  lemma {:induction false} InflightOn(cfg: Config, w: World, a: Model, id: Id)
    requires At(cfg, w, a, id) && a.owner[id].Admitted? && w.m.cells[id].counter == a.owner[id].entry.serial
    ensures At(cfg, Apply(w, Slot(id, Inflight, 1)), a, id)
  {
    InflightOnMatches(cfg, w, a, id);
  }

  lemma {:induction false} InflightOnMatches(cfg: Config, w: World, a: Model, id: Id)
    requires Matches(cfg, w, a) && cfg.Has(id) && Only(cfg, w, a, id) && a.owner[id].Admitted? &&
      w.m.cells[id].counter == a.owner[id].entry.serial
    ensures Matches(cfg, Apply(w, Slot(id, Inflight, 1)), a)
    ensures Only(cfg, Apply(w, Slot(id, Inflight, 1)), a, id)
  {
    var x := Apply(w, Slot(id, Inflight, 1));
    forall j | cfg.Has(j) ensures CellRef(cfg, x, a, j) && (Between(cfg, x, a, j) ==> j == id) {
      assert CellRef(cfg, w, a, j);
      assert Between(cfg, w, a, j) ==> j == id;
    }
    forall q | 0 <= q < cfg.queues ensures QueueRef(cfg, x, a, q) {
      assert QueueRef(cfg, w, a, q);
    }
  }

  lemma {:induction false} Activated(cfg: Config, w: World, a: Model, id: Id)
    requires At(cfg, w, a, id) && a.owner[id].Admitted? && w.m.cells[id].inflight == 1
    ensures At(cfg, Apply(w, Slot(id, State, ACTIVE)), a, id)
  {
    ActivatedMatches(cfg, w, a, id);
  }

  lemma {:induction false} ActivatedMatches(cfg: Config, w: World, a: Model, id: Id)
    requires Matches(cfg, w, a) && cfg.Has(id) && Only(cfg, w, a, id) && a.owner[id].Admitted? &&
      w.m.cells[id].inflight == 1
    ensures Matches(cfg, Apply(w, Slot(id, State, ACTIVE)), a)
    ensures Only(cfg, Apply(w, Slot(id, State, ACTIVE)), a, id)
  {
    var x := Apply(w, Slot(id, State, ACTIVE));
    forall j | cfg.Has(j) ensures CellRef(cfg, x, a, j) && (Between(cfg, x, a, j) ==> j == id) {
      assert CellRef(cfg, w, a, j);
      assert Between(cfg, w, a, j) ==> j == id;
    }
    forall q | 0 <= q < cfg.queues ensures QueueRef(cfg, x, a, q) {
      assert QueueRef(cfg, w, a, q);
    }
  }

  lemma {:induction false} SerialCounter(cfg: Config, w: World, a: Model, id: Id)
    requires At(cfg, w, a, id)
    ensures At(cfg, Apply(w, HighSerial(|a.history|)), a, id)
  {
    SerialCounterMatches(cfg, w, a, id);
  }

  lemma {:induction false} SerialCounterMatches(cfg: Config, w: World, a: Model, id: Id)
    requires Matches(cfg, w, a) && cfg.Has(id) && Only(cfg, w, a, id)
    ensures Matches(cfg, Apply(w, HighSerial(|a.history|)), a)
    ensures Only(cfg, Apply(w, HighSerial(|a.history|)), a, id)
  {
    var x := Apply(w, HighSerial(|a.history|));
    forall j | cfg.Has(j) ensures CellRef(cfg, x, a, j) && (Between(cfg, x, a, j) ==> j == id) {
      assert CellRef(cfg, w, a, j);
      assert Between(cfg, w, a, j) ==> j == id;
    }
    forall q | 0 <= q < cfg.queues ensures QueueRef(cfg, x, a, q) {
      assert QueueRef(cfg, w, a, q);
    }
  }

  lemma {:induction false} MutationCounter(cfg: Config, w: World, a: Model, id: Id)
    requires At(cfg, w, a, id)
    ensures At(cfg, Apply(w, HighMutation(a.mutation)), a, id)
  {
    MutationCounterMatches(cfg, w, a, id);
  }

  lemma {:induction false} MutationCounterMatches(cfg: Config, w: World, a: Model, id: Id)
    requires Matches(cfg, w, a) && cfg.Has(id) && Only(cfg, w, a, id)
    ensures Matches(cfg, Apply(w, HighMutation(a.mutation)), a)
    ensures Only(cfg, Apply(w, HighMutation(a.mutation)), a, id)
  {
    var x := Apply(w, HighMutation(a.mutation));
    forall j | cfg.Has(j) ensures CellRef(cfg, x, a, j) && (Between(cfg, x, a, j) ==> j == id) {
      assert CellRef(cfg, w, a, j);
      assert Between(cfg, w, a, j) ==> j == id;
    }
    forall q | 0 <= q < cfg.queues ensures QueueRef(cfg, x, a, q) {
      assert QueueRef(cfg, w, a, q);
    }
  }

  // ----- completion ----------------------------------------------------------

  /** Naming the head about to be used, while the guest's index is level. */
  lemma {:induction false} NameHead(cfg: Config, w: World, a: Model, id: Id)
    requires At(cfg, w, a, id) && NoneRetiring(a)
    ensures At(cfg, Apply(w, LastHead(id.queue, id.head)), a, id)
  {
    NameHeadMatches(cfg, w, a, id);
  }

  lemma {:induction false} NameHeadMatches(cfg: Config, w: World, a: Model, id: Id)
    requires Matches(cfg, w, a) && cfg.Has(id) && Only(cfg, w, a, id) && NoneRetiring(a)
    ensures Matches(cfg, Apply(w, LastHead(id.queue, id.head)), a)
    ensures Only(cfg, Apply(w, LastHead(id.queue, id.head)), a, id)
  {
    var x := Apply(w, LastHead(id.queue, id.head));
    forall j | cfg.Has(j) ensures CellRef(cfg, x, a, j) && (Between(cfg, x, a, j) ==> j == id) {
      assert CellRef(cfg, w, a, j);
      assert Between(cfg, w, a, j) ==> j == id;
    }
    forall q | 0 <= q < cfg.queues ensures QueueRef(cfg, x, a, q) {
      assert QueueRef(cfg, w, a, q);
    }
  }

  /** The guest's `used.idx` commits a completion. */
  lemma {:induction false} UseCommit(cfg: Config, w: World, a: Model, e: Entry, used: u16, error: bool)
    requires At(cfg, w, a, e.request.Where()) && CanComplete(a, e, used, error)
    requires forall j | cfg.Has(j) :: !Between(cfg, w, a, j)
    requires w.m.queues[e.request.queue].lastHead == e.request.head
    ensures At(cfg, Apply(w, Publish(e.request.queue)), Use(a, e, !error), e.request.Where())
  {
    SettledExact(cfg, w, a);
    UseInv(cfg, a, e, used, error);
    assert OwnerOk(cfg, a, e.request.Where(), a.owner[e.request.Where()]);
    UseMatches(cfg, w, a, e, !error);
  }

  lemma {:induction false} UseMatches(cfg: Config, w: World, a: Model, e: Entry, success: bool)
    requires Matches(cfg, w, a) && NoneRetiring(a) && cfg.Has(e.request.Where())
    requires forall j | cfg.Has(j) :: !Between(cfg, w, a, j)
    requires a.owner[e.request.Where()] == Admitted(e) && a.cursors[e.request.queue].live
    requires w.m.queues[e.request.queue].lastHead == e.request.head
    requires w.m.mutation == a.mutation && w.m.serial == |a.history| && w.m.discovery == |a.found|
    ensures Matches(cfg, Apply(w, Publish(e.request.queue)), Use(a, e, success))
    ensures Only(cfg, Apply(w, Publish(e.request.queue)), Use(a, e, success), e.request.Where())
  {
    hide CellRef, QueueRef, Between, HeaderRef, Use, Apply;
    var id := e.request.Where();
    var x := Apply(w, Publish(id.queue));
    var b := Use(a, e, success);
    UseSized(cfg, w, a, e, success);
    UseHeader(cfg, w, a, e, success);
    forall j | cfg.Has(j) ensures CellRef(cfg, x, b, j) && (Between(cfg, x, b, j) ==> j == id) {
      UseCell(cfg, w, a, e, success, j);
    }
    forall q | 0 <= q < cfg.queues ensures QueueRef(cfg, x, b, q) {
      UseQueue(cfg, w, a, e, success, q);
    }
  }

  lemma {:induction false} UseSized(cfg: Config, w: World, a: Model, e: Entry, success: bool)
    requires Sized(cfg, w, a) && cfg.Has(e.request.Where())
    ensures Sized(cfg, Apply(w, Publish(e.request.queue)), Use(a, e, success))
  {
  }

  lemma {:induction false} UseHeader(cfg: Config, w: World, a: Model, e: Entry, success: bool)
    requires Sized(cfg, w, a) && HeaderRef(cfg, w, a) && cfg.Has(e.request.Where())
    requires w.m.mutation == a.mutation && w.m.serial == |a.history| && w.m.discovery == |a.found|
    ensures HeaderRef(cfg, Apply(w, Publish(e.request.queue)), Use(a, e, success))
  {
  }

  lemma {:induction false} UseCell(cfg: Config, w: World, a: Model, e: Entry, success: bool, j: Id)
    requires Sized(cfg, w, a) && cfg.Has(j) && CellRef(cfg, w, a, j) && !Between(cfg, w, a, j)
    requires cfg.Has(e.request.Where()) && QueueRef(cfg, w, a, e.request.queue) &&
      !Between(cfg, w, a, e.request.Where())
    requires a.owner[e.request.Where()] == Admitted(e) && a.cursors[e.request.queue].live && NoneRetiring(a)
    requires w.m.queues[e.request.queue].lastHead == e.request.head
    ensures Sized(cfg, Apply(w, Publish(e.request.queue)), Use(a, e, success))
    ensures CellRef(cfg, Apply(w, Publish(e.request.queue)), Use(a, e, success), j)
    ensures Between(cfg, Apply(w, Publish(e.request.queue)), Use(a, e, success), j) ==> j == e.request.Where()
  {
    UseSized(cfg, w, a, e, success);
    hide Sized;
  }

  lemma {:induction false} UseQueue(cfg: Config, w: World, a: Model, e: Entry, success: bool, q: nat)
    requires Sized(cfg, w, a) && q < cfg.queues && QueueRef(cfg, w, a, q) && cfg.Has(e.request.Where())
    requires a.owner[e.request.Where()] == Admitted(e) && a.cursors[e.request.queue].live && NoneRetiring(a)
    requires w.m.queues[e.request.queue].lastHead == e.request.head
    ensures Sized(cfg, Apply(w, Publish(e.request.queue)), Use(a, e, success))
    ensures QueueRef(cfg, Apply(w, Publish(e.request.queue)), Use(a, e, success), q)
  {
    UseSized(cfg, w, a, e, success);
    assert NewestFound(a) ==> NewestFound(Use(a, e, success));
  }

  lemma {:induction false} InflightOff(cfg: Config, w: World, a: Model, id: Id)
    requires At(cfg, w, a, id) && a.owner[id].Retiring?
    ensures At(cfg, Apply(w, Slot(id, Inflight, 0)), a, id)
  {
    InflightOffMatches(cfg, w, a, id);
  }

  lemma {:induction false} InflightOffMatches(cfg: Config, w: World, a: Model, id: Id)
    requires Matches(cfg, w, a) && cfg.Has(id) && Only(cfg, w, a, id) && a.owner[id].Retiring?
    ensures Matches(cfg, Apply(w, Slot(id, Inflight, 0)), a)
    ensures Only(cfg, Apply(w, Slot(id, Inflight, 0)), a, id)
  {
    var x := Apply(w, Slot(id, Inflight, 0));
    forall j | cfg.Has(j) ensures CellRef(cfg, x, a, j) && (Between(cfg, x, a, j) ==> j == id) {
      assert CellRef(cfg, w, a, j);
      assert Between(cfg, w, a, j) ==> j == id;
    }
    forall q | 0 <= q < cfg.queues ensures QueueRef(cfg, x, a, q) {
      assert QueueRef(cfg, w, a, q);
    }
  }

  lemma {:induction false} UsedCursor(cfg: Config, w: World, a: Model, id: Id)
    requires At(cfg, w, a, id) && a.owner[id].Retiring? && w.m.cells[id].inflight == 0
    ensures a.cursors[id.queue].live
    ensures At(cfg, Apply(w, Used(id.queue, a.cursors[id.queue].used)), a, id)
  {
    assert OwnerOk(cfg, a, id, a.owner[id]);
    UsedCursorMatches(cfg, w, a, id);
  }

  lemma {:induction false} UsedCursorMatches(cfg: Config, w: World, a: Model, id: Id)
    requires Matches(cfg, w, a) && cfg.Has(id) && Only(cfg, w, a, id) && a.owner[id].Retiring? &&
      w.m.cells[id].inflight == 0
    requires a.cursors[id.queue].live
    ensures Matches(cfg, Apply(w, Used(id.queue, a.cursors[id.queue].used)), a)
    ensures Only(cfg, Apply(w, Used(id.queue, a.cursors[id.queue].used)), a, id)
  {
    var x := Apply(w, Used(id.queue, a.cursors[id.queue].used));
    forall j | cfg.Has(j) ensures CellRef(cfg, x, a, j) && (Between(cfg, x, a, j) ==> j == id) {
      assert CellRef(cfg, w, a, j);
      assert Between(cfg, w, a, j) ==> j == id;
    }
    forall q | 0 <= q < cfg.queues ensures QueueRef(cfg, x, a, q) {
      assert QueueRef(cfg, w, a, q);
    }
  }

  /** `EMPTY` gives the head back. */
  lemma {:induction false} ReleaseCommit(cfg: Config, w: World, a: Model, id: Id)
    requires At(cfg, w, a, id) && a.owner[id].Retiring? && w.m.cells[id].inflight == 0
    requires w.m.queues[id.queue].used == a.cursors[id.queue].used
    ensures Settled(cfg, Apply(w, Slot(id, State, EMPTY)), Release(a, id))
  {
    ReleaseInv(cfg, a, id);
    assert OwnerOk(cfg, a, id, a.owner[id]);
    ReleaseMatches(cfg, w, a, id);
  }

  lemma {:induction false} ReleaseMatches(cfg: Config, w: World, a: Model, id: Id)
    requires Matches(cfg, w, a) && cfg.Has(id) && Only(cfg, w, a, id)
    requires a.owner[id].Retiring? && w.m.cells[id].inflight == 0 && a.cursors[id.queue].live
    requires w.m.queues[id.queue].used == a.cursors[id.queue].used
    ensures Matches(cfg, Apply(w, Slot(id, State, EMPTY)), Release(a, id))
    ensures forall j | cfg.Has(j) :: !Between(cfg, Apply(w, Slot(id, State, EMPTY)), Release(a, id), j)
  {
    var x := Apply(w, Slot(id, State, EMPTY));
    var b := Release(a, id);
    assert NewestFound(a) ==> NewestFound(b);
    assert NewestAdmitted(a) ==> NewestAdmitted(b);
    forall j | cfg.Has(j) ensures CellRef(cfg, x, b, j) && !Between(cfg, x, b, j) {
      assert CellRef(cfg, w, a, j);
      assert Between(cfg, w, a, j) ==> j == id;
    }
    forall q | 0 <= q < cfg.queues ensures QueueRef(cfg, x, b, q) {
      assert QueueRef(cfg, w, a, q);
    }
  }

  // ----- publication and failure ---------------------------------------------

  lemma {:induction false} PrefixStore(cfg: Config, w: World, a: Model, prefix: nat)
    requires Settled(cfg, w, a) && CanPublish(a, prefix)
    ensures Settled(cfg, Apply(w, Prefix(prefix)), a.(published := prefix))
  {
    PublishInv(cfg, a, prefix);
    SettledExact(cfg, w, a);
    PrefixMatches(cfg, w, a, prefix);
  }

  lemma {:induction false} PrefixMatches(cfg: Config, w: World, a: Model, prefix: nat)
    requires Matches(cfg, w, a) && prefix <= w.m.mutation == a.mutation
    requires forall j | cfg.Has(j) :: !Between(cfg, w, a, j)
    ensures Matches(cfg, Apply(w, Prefix(prefix)), a.(published := prefix))
    ensures forall j | cfg.Has(j) :: !Between(cfg, Apply(w, Prefix(prefix)), a.(published := prefix), j)
  {
    var x := Apply(w, Prefix(prefix));
    var b := a.(published := prefix);
    forall j | cfg.Has(j) ensures CellRef(cfg, x, b, j) && !Between(cfg, x, b, j) {
      assert CellRef(cfg, w, a, j);
      assert !Between(cfg, w, a, j);
    }
    forall q | 0 <= q < cfg.queues ensures QueueRef(cfg, x, b, q) {
      assert QueueRef(cfg, w, a, q);
    }
  }

  lemma {:induction false} FailStore(cfg: Config, w: World, a: Model)
    requires Settled(cfg, w, a)
    ensures Settled(cfg, Apply(w, Fail), a.(failed := true))
  {
    FailInv(cfg, a);
    FailMatches(cfg, w, a);
  }

  lemma {:induction false} FailMatches(cfg: Config, w: World, a: Model)
    requires Matches(cfg, w, a)
    requires forall j | cfg.Has(j) :: !Between(cfg, w, a, j)
    ensures Matches(cfg, Apply(w, Fail), a.(failed := true))
    ensures forall j | cfg.Has(j) :: !Between(cfg, Apply(w, Fail), a.(failed := true), j)
  {
    var x := Apply(w, Fail);
    var b := a.(failed := true);
    forall j | cfg.Has(j) ensures CellRef(cfg, x, b, j) && !Between(cfg, x, b, j) {
      assert CellRef(cfg, w, a, j);
      assert !Between(cfg, w, a, j);
    }
    forall q | 0 <= q < cfg.queues ensures QueueRef(cfg, x, b, q) {
      assert QueueRef(cfg, w, a, q);
    }
  }

  /**
   * The mapping and the guest's index decide which used entries are out: an
   * ACTIVE slot's is, exactly when its in-flight flag is clear or the guest is
   * one past the saved cursor and the last head names it.
   */
  lemma {:induction false} PublicationDecided(cfg: Config, w: World, a: Model, id: Id)
    requires Recoverable(cfg, w, a) && cfg.Has(id) && w.m.cells[id].state == ACTIVE
    ensures HasEntry(a.owner[id])
    ensures a.owner[id].Retiring? <==>
              (w.m.cells[id].inflight == 0 ||
               (w.guest[id.queue] == Next16(w.m.queues[id.queue].used) && w.m.queues[id.queue].lastHead == id.head))
  {
    assert CellRef(cfg, w, a, id);
    assert QueueRef(cfg, w, a, id.queue);
    assert OwnerOk(cfg, a, id, a.owner[id]);
  }

  /**
   * At most one head is between phases, and only that head runs ahead of the
   * header's counters, by exactly one.
   */
  lemma {:induction false} OneHeadInProgress(cfg: Config, w: World, a: Model, i: Id, j: Id)
    requires Recoverable(cfg, w, a) && cfg.Has(i) && cfg.Has(j)
    ensures Between(cfg, w, a, i) && Between(cfg, w, a, j) ==> i == j
    ensures a.owner[i].Found? && a.owner[i].discovery > w.m.discovery ==>
              Between(cfg, w, a, i) && a.owner[i].discovery == w.m.discovery + 1
    ensures HasEntry(a.owner[i]) && a.owner[i].entry.serial > w.m.serial ==>
              Between(cfg, w, a, i) && a.owner[i].entry.serial == w.m.serial + 1
    ensures HasEntry(a.owner[i]) && a.owner[i].entry.mutation > w.m.mutation ==>
              Between(cfg, w, a, i) && a.owner[i].entry.mutation == w.m.mutation + 1
  {
    assert OwnerOk(cfg, a, i, a.owner[i]);
  }
}
