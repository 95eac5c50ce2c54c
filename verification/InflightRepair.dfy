/** The repair stores of a reconciliation, one record at a time. */
module InflightRepair {
  import opened Units
  import opened Sorting
  import opened InflightLayout
  import opened InflightModel
  import opened InflightRefinement
  import opened InflightOperations
  import opened InflightRecovery
  import opened InflightReconcile

  /** The model once a published head has been given back. */
  function Settle(a: Model): Model {
    a.(owner := map id | id in a.owner :: if a.owner[id].Retiring? then Free else a.owner[id])
  }

  lemma {:induction false} SettleIs(cfg: Config, a: Model, id: Id)
    requires ModelInv(cfg, a) && id in a.owner && a.owner[id].Retiring?
    ensures Release(a, id) == Settle(a)
  {
    var b := Release(a, id);
    forall j | j in a.owner ensures b.owner[j] == Settle(a).owner[j] {
    }
    assert b.owner == Settle(a).owner;
  }

  lemma {:induction false} SettleNone(a: Model)
    requires NoneRetiring(a)
    ensures Settle(a) == a
  {
    assert Settle(a).owner == a.owner;
  }

  lemma {:induction false} SettleTwice(a: Model)
    ensures Settle(Settle(a)) == Settle(a)
  {
    SettleNone(Settle(a));
  }

  /** A cut of the repair stands for the model before or after that. */
  ghost predicate Mid(cfg: Config, x: World, a: Model, f: Id) {
    At(cfg, x, a, f) || At(cfg, x, Settle(a), f)
  }

  lemma {:induction false} SomeFocus(cfg: Config, w: World, a: Model) returns (f: Id)
    requires Recoverable(cfg, w, a)
    ensures At(cfg, w, a, f)
  {
    f :| Only(cfg, w, a, f);
    if !cfg.Has(f) {
      f := Id(0, 0);
      assert cfg.Has(f);
    }
  }

  /** Only the cell of `id` may differ. */
  ghost predicate CellOnly(x: World, y: World, id: Id) {
    && y == x.(m := x.m.(cells := y.m.cells))
    && y.m.cells.Keys == x.m.cells.Keys
    && (forall j | j in x.m.cells && j != id :: y.m.cells[j] == x.m.cells[j])
  }

  lemma {:induction false} SlotFrame(x: World, stores: seq<Store>, id: Id)
    requires forall i | 0 <= i < |stores| :: stores[i].Slot? && stores[i].id == id
    ensures CellOnly(x, Run(x, stores), id)
    decreases |stores|
  {
    if stores != [] {
      SlotFrame(Apply(x, stores[0]), stores[1..], id);
    }
  }

  /** Heads other than `id`, and the guest, are left alone. */
  ghost predicate Elsewhere(x: World, y: World, id: Id) {
    && y.guest == x.guest
    && y.m.cells.Keys == x.m.cells.Keys
    && (forall j | j in x.m.cells && j != id :: y.m.cells[j] == x.m.cells[j])
  }

  lemma {:induction false} HeadFrame(x: World, stores: seq<Store>, id: Id)
    requires forall i | 0 <= i < |stores| :: !stores[i].Publish? && (stores[i].Slot? ==> stores[i].id == id)
    ensures Elsewhere(x, Run(x, stores), id)
    decreases |stores|
  {
    if stores != [] {
      HeadFrame(Apply(x, stores[0]), stores[1..], id);
    }
  }

  // ----- finishing a published completion ------------------------------------

  lemma {:induction false} RetiringIsFocus(cfg: Config, x: World, a: Model, f: Id, id: Id)
    requires At(cfg, x, a, f) && cfg.Has(id) && a.owner[id].Retiring?
    ensures id == f
  {
    assert Between(cfg, x, a, id);
  }

  lemma {:induction false} FinishCut(cfg: Config, x: World, a: Model, e: Entry, k: nat)
    requires At(cfg, x, a, e.request.Where()) && k <= 3
    requires a.owner[e.request.Where()] == Retiring(e)
    ensures k < 3 ==> At(cfg, Cut(x, FinishStores(e, a.cursors[e.request.queue].used), k), a, e.request.Where())
    ensures k == 3 ==> Settled(cfg, Cut(x, FinishStores(e, a.cursors[e.request.queue].used), k), Settle(a))
    ensures Elsewhere(x, Cut(x, FinishStores(e, a.cursors[e.request.queue].used), k), e.request.Where())
  {
    hide At, Settled, ModelInv, Settle, Elsewhere;
    var id := e.request.Where();
    AtShape(cfg, x, a, id);
    var s := FinishStores(e, a.cursors[e.request.queue].used);
    HeadFrame(x, s[..k], id);
    assert s[..0] == [];
    if k > 0 {
      CutStep(x, s, 0);
      InflightOff(cfg, x, a, id);
    }
    if k > 1 {
      CutStep(x, s, 1);
      UsedCursor(cfg, Cut(x, s, 1), a, id);
    }
    if k > 2 {
      CutStep(x, s, 2);
      ReleaseCommit(cfg, Cut(x, s, 2), a, id);
      ReleasedIs(cfg, x, a, id);
    }
  }

  lemma {:induction false} ReleasedIs(cfg: Config, x: World, a: Model, id: Id)
    requires At(cfg, x, a, id) && a.owner[id].Retiring?
    ensures Release(a, id) == Settle(a)
  {
    SettleIs(cfg, a, id);
  }

  // ----- one saved record ----------------------------------------------------

  /** The record still describes its head, or its head was already given back. */
  ghost predicate Ready(cfg: Config, x: World, b: Model, done: seq<(Entry, u16)>, r: Saved) {
    && r.Where() in x.m.cells && r.Where() in b.owner
    && r.Where().queue < |x.m.queues| && r.Where().queue < |b.cursors|
    && if IsDone(done, r.entry) then b.owner[r.Where()].Free?
       else
         && Fits(cfg, x, b, r)
         && (b.owner[r.Where()].Retiring? ==>
               x.m.cells[r.Where()].inflight == 0 &&
                 x.m.queues[r.Where().queue].used == b.cursors[r.Where().queue].used)
  }

  /** A head no repair is owed to, but for the header's counters. */
  ghost predicate Stable(x: World, b: Model, id: Id)
    requires id in x.m.cells && id in b.owner
  {
    !b.owner[id].Retiring? && (b.owner[id].Admitted? ==> x.m.cells[id].state == ACTIVE)
  }

  function After(b: Model, done: seq<(Entry, u16)>, r: Saved): Model {
    if Dispose(done, r) == Drop then Settle(b) else b
  }

  lemma {:induction false} SameStore(x: World, id: Id, f: Field, v: nat)
    requires id in x.m.cells && Put(x.m.cells[id], f, v) == x.m.cells[id]
    ensures Apply(x, Slot(id, f, v)) == x
  {
    assert x.m.cells[id := x.m.cells[id]] == x.m.cells;
  }

  lemma {:induction false} SettledHead(cfg: Config, x: World, b: Model, f: Id, id: Id)
    requires At(cfg, x, b, f) && cfg.Has(id) && id != f && b.owner[id].Admitted?
    ensures id in x.m.cells
    ensures var c := x.m.cells[id]; c.state == ACTIVE && c.inflight == 1 && c.counter == b.owner[id].entry.serial
  {
    assert CellRef(cfg, x, b, id);
    assert !Between(cfg, x, b, id);
  }

  lemma {:induction false} RestartCut(cfg: Config, x: World, b: Model, f: Id, e: Entry, k: nat)
    requires At(cfg, x, b, f) && k <= 3
    requires cfg.Has(e.request.Where()) && b.owner[e.request.Where()] == Admitted(e)
    ensures At(cfg, Cut(x, ActivateStores(e), k), b, f)
    ensures CellOnly(x, Cut(x, ActivateStores(e), k), e.request.Where())
    ensures k == 3 ==> e.request.Where() in Cut(x, ActivateStores(e), k).m.cells
                       && Cut(x, ActivateStores(e), k).m.cells[e.request.Where()].state == ACTIVE
  {
    hide At, ModelInv, CellOnly;
    SlotFrame(x, ActivateStores(e)[..k], e.request.Where());
    if e.request.Where() != f {
      RestartNoop(cfg, x, b, f, e, k);
    } else {
      RestartFocus(cfg, x, b, e, k);
    }
  }

  lemma {:induction false} RestartNoop(cfg: Config, x: World, b: Model, f: Id, e: Entry, k: nat)
    requires At(cfg, x, b, f) && k <= 3
    requires cfg.Has(e.request.Where()) && b.owner[e.request.Where()] == Admitted(e) && e.request.Where() != f
    ensures Cut(x, ActivateStores(e), k) == x
    ensures e.request.Where() in x.m.cells && x.m.cells[e.request.Where()].state == ACTIVE
  {
    hide At, ModelInv, Apply;
    var id := e.request.Where();
    var s := ActivateStores(e);
    SettledHead(cfg, x, b, f, id);
    SameStore(x, id, Counter, e.serial);
    SameStore(x, id, Inflight, 1);
    SameStore(x, id, State, ACTIVE);
    assert s[..0] == [];
    if k > 0 { CutStep(x, s, 0); }
    if k > 1 { CutStep(x, s, 1); }
    if k > 2 { CutStep(x, s, 2); }
  }

  lemma {:induction false} RestartFocus(cfg: Config, x: World, b: Model, e: Entry, k: nat)
    requires At(cfg, x, b, e.request.Where()) && k <= 3
    requires b.owner[e.request.Where()] == Admitted(e)
    ensures At(cfg, Cut(x, ActivateStores(e), k), b, e.request.Where())
    ensures k == 3 ==> e.request.Where() in Cut(x, ActivateStores(e), k).m.cells
                       && Cut(x, ActivateStores(e), k).m.cells[e.request.Where()].state == ACTIVE
  {
    hide At, ModelInv;
    var id := e.request.Where();
    var s := ActivateStores(e);
    AtShape(cfg, x, b, id);
    assert s[..0] == [];
    if k > 0 {
      CutStep(x, s, 0);
      CounterStep(cfg, x, b, id);
    }
    if k > 1 {
      CutStep(x, s, 1);
      InflightOn(cfg, Cut(x, s, 1), b, id);
    }
    if k > 2 {
      CutStep(x, s, 2);
      Activated(cfg, Cut(x, s, 2), b, id);
    }
  }

  lemma {:induction false} CounterStep(cfg: Config, x: World, b: Model, id: Id)
    requires At(cfg, x, b, id) && b.owner[id].Admitted?
    ensures At(cfg, Apply(x, Slot(id, Counter, b.owner[id].entry.serial)), b, id)
  {
    hide At, ModelInv;
    AdmittedCell(cfg, x, b, id);
    AtShape(cfg, x, b, id);
    if x.m.cells[id].inflight == 0 {
      DeadStore(cfg, x, b, id, Counter, b.owner[id].entry.serial);
    } else {
      SameStore(x, id, Counter, b.owner[id].entry.serial);
    }
  }

  lemma {:induction false} AdmittedCell(cfg: Config, x: World, b: Model, id: Id)
    requires At(cfg, x, b, id) && b.owner[id].Admitted?
    ensures x.m.cells[id].inflight <= 1
    ensures x.m.cells[id].inflight == 1 ==> x.m.cells[id].counter == b.owner[id].entry.serial
  {
    assert CellRef(cfg, x, b, id);
  }

  /** What kind of owner each disposition meets. */
  lemma {:induction false} DisposeOwner(cfg: Config, x: World, b: Model, f: Id, done: seq<(Entry, u16)>, r: Saved)
    requires At(cfg, x, b, f) && cfg.Has(r.Where()) && Ready(cfg, x, b, done, r)
    ensures match Dispose(done, r)
      case Skip => b.owner[r.Where()].Free?
      case Keep => b.owner[r.Where()].Found?
      case Drop => HasEntry(b.owner[r.Where()]) && b.owner[r.Where()] == Retiring(r.entry)
      case Restart => HasEntry(b.owner[r.Where()]) && b.owner[r.Where()] == Admitted(r.entry)
  {
    assert CellRef(cfg, x, b, r.Where());
  }

  lemma {:induction false} RecordCut(cfg: Config, x: World, b: Model, f: Id, done: seq<(Entry, u16)>, r: Saved, k: nat)
    requires At(cfg, x, b, f) && cfg.Has(r.Where()) && Ready(cfg, x, b, done, r)
    requires k <= |RecordStores(done, r)|
    ensures CellOnly(x, Cut(x, RecordStores(done, r), k), r.Where())
    ensures k < |RecordStores(done, r)| ==> At(cfg, Cut(x, RecordStores(done, r), k), b, f)
    ensures k == |RecordStores(done, r)| ==> At(cfg, Cut(x, RecordStores(done, r), k), After(b, done, r), f)
    ensures k == |RecordStores(done, r)| ==>
      && r.Where() in After(b, done, r).owner && r.Where() in Cut(x, RecordStores(done, r), k).m.cells
      && Stable(Cut(x, RecordStores(done, r), k), After(b, done, r), r.Where())
  {
    hide At, Ready, CellOnly, Dispose;
    var s := RecordStores(done, r);
    AtShape(cfg, x, b, f);
    DisposeOwner(cfg, x, b, f, done, r);
    SlotFrame(x, s[..k], r.Where());
    ReadyHead(cfg, x, b, done, r);
    assert s[..0] == [];
    match Dispose(done, r)
    case Skip =>
    case Keep =>
    case Restart =>
      RestartCut(cfg, x, b, f, r.entry, k);
    case Drop =>
      if k == 1 {
        CutStep(x, s, 0);
        DropCut(cfg, x, b, f, done, r);
      }
  }

  lemma {:induction false} ReadyHead(cfg: Config, x: World, b: Model, done: seq<(Entry, u16)>, r: Saved)
    requires Ready(cfg, x, b, done, r)
    ensures r.Where() in x.m.cells && r.Where() in b.owner
  {
  }

  lemma {:induction false} DropCut(cfg: Config, x: World, b: Model, f: Id, done: seq<(Entry, u16)>, r: Saved)
    requires At(cfg, x, b, f) && cfg.Has(r.Where()) && Ready(cfg, x, b, done, r) && Dispose(done, r) == Drop
    requires b.owner[r.Where()] == Retiring(r.entry)
    ensures At(cfg, Apply(x, Slot(r.Where(), State, EMPTY)), Settle(b), f)
  {
    RetiringIsFocus(cfg, x, b, f, r.Where());
    ReleaseCommit(cfg, x, b, f);
    ReleasedIs(cfg, x, b, f);
    SettledAt(cfg, Apply(x, Slot(f, State, EMPTY)), Settle(b), f);
  }

  // ----- all saved records ---------------------------------------------------

  function AfterAll(b: Model, done: seq<(Entry, u16)>, saved: seq<Saved>): Model {
    if saved == [] then b else After(AfterAll(b, done, saved[..|saved| - 1]), done, saved[|saved| - 1])
  }

  /** After the first records: where the repair stands. */
  ghost predicate Repaired(cfg: Config, x: World, b: Model, y: World, c: Model, f: Id,
                           done: seq<(Entry, u16)>, saved: seq<Saved>, n: nat)
  {
    && n <= |saved|
    && At(cfg, y, c, f)
    && (c == b || c == Settle(b))
    && y == x.(m := x.m.(cells := y.m.cells))
    && y.m.cells.Keys == x.m.cells.Keys
    && (forall i | n <= i < |saved| :: Ready(cfg, y, c, done, saved[i]))
    && (forall i | 0 <= i < n ::
         saved[i].Where() in y.m.cells && saved[i].Where() in c.owner && Stable(y, c, saved[i].Where()))
  }

  lemma {:induction false} ReadyKept(cfg: Config, y: World, c: Model, z: World, d: Model, done: seq<(Entry, u16)>,
      r: Saved, t: Saved)
    requires Ready(cfg, y, c, done, t) && t.Where() != r.Where()
    requires CellOnly(y, z, r.Where())
    requires d == c || (d == Settle(c) && (forall j | j in c.owner && c.owner[j].Retiring? :: j == r.Where()))
    ensures Ready(cfg, z, d, done, t)
  {
  }

  lemma {:induction false} StableKept(y: World, c: Model, z: World, d: Model, r: Saved, id: Id)
    requires id in y.m.cells && id in c.owner && Stable(y, c, id) && id != r.Where()
    requires CellOnly(y, z, r.Where()) && (d == c || d == Settle(c))
    ensures id in z.m.cells && id in d.owner && Stable(z, d, id)
  {
  }

  lemma {:induction false} RepairStep(cfg: Config, x: World, b: Model, y: World, c: Model, f: Id,
      done: seq<(Entry, u16)>, saved: seq<Saved>, n: nat)
    requires n < |saved| && Repaired(cfg, x, b, y, c, f, done, saved, n)
    requires Apart(saved, WhereOf()) && cfg.Has(saved[n].Where())
    ensures Repaired(cfg, x, b, Run(y, RecordStores(done, saved[n])), After(c, done, saved[n]), f, done, saved, n + 1)
  {
    hide At, Ready, Stable, Dispose, Run, RecordStores, Settle, CellOnly;
    var r := saved[n];
    var s := RecordStores(done, r);
    var z := Run(y, s);
    var d := After(c, done, r);
    assert s[..|s|] == s;
    RecordCut(cfg, y, c, f, done, r, |s|);
    SettleTwice(b);
    DropRetires(cfg, y, c, f, done, r);
    FrameKept(x, y, z, r.Where());
    forall i | n + 1 <= i < |saved| ensures Ready(cfg, z, d, done, saved[i]) {
      assert WhereOf()(r) != WhereOf()(saved[i]);
      ReadyKept(cfg, y, c, z, d, done, r, saved[i]);
    }
    forall i | 0 <= i < n + 1
      ensures saved[i].Where() in z.m.cells && saved[i].Where() in d.owner && Stable(z, d, saved[i].Where())
    {
      if i < n {
        assert WhereOf()(saved[i]) != WhereOf()(r);
        StableKept(y, c, z, d, r, saved[i].Where());
      }
    }
  }

  lemma {:induction false} FrameKept(x: World, y: World, z: World, id: Id)
    requires y == x.(m := x.m.(cells := y.m.cells)) && y.m.cells.Keys == x.m.cells.Keys
    requires CellOnly(y, z, id)
    ensures z == x.(m := x.m.(cells := z.m.cells)) && z.m.cells.Keys == x.m.cells.Keys
  {
  }

  lemma {:induction false} DropRetires(cfg: Config, y: World, c: Model, f: Id, done: seq<(Entry, u16)>, r: Saved)
    requires At(cfg, y, c, f) && cfg.Has(r.Where()) && Ready(cfg, y, c, done, r)
    ensures Dispose(done, r) == Drop ==> forall j | j in c.owner && c.owner[j].Retiring? :: j == r.Where()
  {
    DisposeOwner(cfg, y, c, f, done, r);
  }

  lemma {:induction false} RepairBase(cfg: Config, x: World, b: Model, f: Id, done: seq<(Entry, u16)>,
      saved: seq<Saved>)
    requires At(cfg, x, b, f)
    requires forall i | 0 <= i < |saved| :: cfg.Has(saved[i].Where()) && Ready(cfg, x, b, done, saved[i])
    ensures Repaired(cfg, x, b, Run(x, RepairStores(done, saved[..0])), AfterAll(b, done, saved[..0]), f, done, saved,
      0)
    ensures RepairStores(done, saved[..0]) == []
  {
    hide At, Ready;
    assert saved[..0] == [];
  }

  lemma {:induction false} RepairUnfold(b: Model, done: seq<(Entry, u16)>, saved: seq<Saved>, n: nat)
    requires 0 < n <= |saved|
    ensures RepairStores(done, saved[..n]) == RepairStores(done, saved[..n - 1]) + RecordStores(done, saved[n - 1])
    ensures AfterAll(b, done, saved[..n]) == After(AfterAll(b, done, saved[..n - 1]), done, saved[n - 1])
  {
    assert saved[..n][..n - 1] == saved[..n - 1];
  }

  lemma {:induction false} RepairState(cfg: Config, x: World, b: Model, f: Id, done: seq<(Entry, u16)>,
      saved: seq<Saved>, n: nat)
    requires At(cfg, x, b, f) && n <= |saved| && Apart(saved, WhereOf())
    requires forall i | 0 <= i < |saved| :: cfg.Has(saved[i].Where()) && Ready(cfg, x, b, done, saved[i])
    ensures Repaired(cfg, x, b, Run(x, RepairStores(done, saved[..n])), AfterAll(b, done, saved[..n]), f, done, saved,
      n)
    decreases n
  {
    hide At, Ready, Repaired, After, Apart, RepairStores, AfterAll, RecordStores, Run;
    if n == 0 {
      RepairBase(cfg, x, b, f, done, saved);
    } else {
      RepairState(cfg, x, b, f, done, saved, n - 1);
      RepairUnfold(b, done, saved, n);
      RunConcat(x, RepairStores(done, saved[..n - 1]), RecordStores(done, saved[n - 1]));
      RepairStep(cfg, x, b, Run(x, RepairStores(done, saved[..n - 1])), AfterAll(b, done, saved[..n - 1]), f, done,
        saved, n - 1);
    }
  }

  /** Every cut of the record repairs is recoverable. */
  lemma {:induction false} RepairCut(cfg: Config, x: World, b: Model, f: Id, done: seq<(Entry, u16)>,
      saved: seq<Saved>, n: nat, k: nat)
    requires At(cfg, x, b, f) && n <= |saved| && Apart(saved, WhereOf())
    requires forall i | 0 <= i < |saved| :: cfg.Has(saved[i].Where()) && Ready(cfg, x, b, done, saved[i])
    requires k <= |RepairStores(done, saved[..n])|
    ensures Mid(cfg, Cut(x, RepairStores(done, saved[..n]), k), b, f)
    decreases n
  {
    hide At, Ready, Repaired, Apart, RepairStores, AfterAll, RecordStores, Run, Cut, Mid;
    if n == 0 {
      RepairBase(cfg, x, b, f, done, saved);
      CutZero(cfg, x, b, f, RepairStores(done, saved[..0]));
    } else {
      var s := RepairStores(done, saved[..n - 1]);
      var t := RecordStores(done, saved[n - 1]);
      RepairUnfold(b, done, saved, n);
      CutConcat(x, s, t, k);
      if k <= |s| {
        RepairCut(cfg, x, b, f, done, saved, n - 1, k);
      } else {
        RepairState(cfg, x, b, f, done, saved, n - 1);
        RepairMiddle(cfg, x, b, Run(x, s), AfterAll(b, done, saved[..n - 1]), f, done, saved, n - 1, k - |s|);
      }
    }
  }

  lemma {:induction false} CutZero(cfg: Config, x: World, b: Model, f: Id, s: seq<Store>)
    requires At(cfg, x, b, f)
    ensures Mid(cfg, Cut(x, s, 0), b, f)
  {
    hide At;
    assert s[..0] == [];
  }

  lemma {:induction false} RepairMiddle(cfg: Config, x: World, b: Model, y: World, c: Model, f: Id,
      done: seq<(Entry, u16)>, saved: seq<Saved>, n: nat, k: nat)
    requires n < |saved| && Repaired(cfg, x, b, y, c, f, done, saved, n) && cfg.Has(saved[n].Where())
    requires k <= |RecordStores(done, saved[n])|
    ensures Mid(cfg, Cut(y, RecordStores(done, saved[n]), k), b, f)
  {
    hide At, Ready, Stable, RecordStores, Run, Settle, CellOnly, Cut;
    RecordCut(cfg, y, c, f, done, saved[n], k);
    SettleTwice(b);
  }
}
