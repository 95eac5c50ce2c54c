/**
 * A crash inside a queue reset. The guest's ring has already been reset when
 * the two stores are made, so the cuts differ from those of any other call.
 */
module InflightReset {
  import opened Units
  import opened InflightLayout
  import opened InflightModel
  import opened InflightRefinement
  import opened InflightOperations
  import opened InflightRecovery
  import opened InflightReconcile
  import opened InflightRepair
  import opened InflightReconciliation
  import opened InflightRuns
  import opened InflightLedger

  function ResetStores(q: nat, available: u16, used: u16): seq<Store> {
    [Used(q, used), Avail(q, available)]
  }

  /** The guest's ring is reset, the mapping not yet touched. */
  function GuestReset(w: World, q: nat, used: u16): World
    requires q < |w.guest|
  {
    w.(guest := w.guest[q := used])
  }

  lemma {:induction false} ResetCuts(cfg: Config, w: World, a: Model, q: nat, available: u16, used: u16)
    requires Settled(cfg, w, a) && ResetOk(cfg, w.m, q)
    ensures q < |w.guest| && q < |w.m.queues| && q < |a.cursors|
    ensures w.m.queues[q].available < 0x1_0000
    ensures var old16 := w.m.queues[q].available; var g := GuestReset(w, q, used);
      var s := ResetStores(q, available, used);
      && Settled(cfg, Cut(g, s, 1), Rebase(a, q, old16, used))
      && Settled(cfg, Cut(g, s, 2), Rebase(a, q, available, used))
  {
    ResetQuiet(cfg, w, a, q);
    assert QueueRef(cfg, w, a, q);
    hide Settled, ResetOk;
    var g := GuestReset(w, q, used);
    var s := ResetStores(q, available, used);
    assert s[..0] == [];
    CutStep(g, s, 0);
    CutStep(g, s, 1);
    var old16 := w.m.queues[q].available;
    assert Cut(g, s, 1) == Rebased(w, q, old16, used);
    assert Cut(g, s, 2) == Rebased(w, q, available, used);
    ResetSettles(cfg, w, a, q, old16, used);
    ResetSettles(cfg, w, a, q, available, used);
  }

  /**
   * Between the two stores, reconciliation accepts and keeps the cursor from
   * before the reset: the reset's own cursor comes back exactly when it is the
   * same one.
   */
  lemma {:induction false} ResetHalfway(cfg: Config, w: World, a: Model, q: nat, available: u16, used: u16)
    requires Settled(cfg, w, a) && ResetOk(cfg, w.m, q)
    ensures q < |w.guest|
    ensures var x := Cut(GuestReset(w, q, used), ResetStores(q, available, used), 1);
      && Shaped(cfg, x.m) && |x.guest| == cfg.queues
      && Reconcile(cfg, x.m, GuestView(x)).Ok?
      && var y := Run(x, Reconcile(cfg, x.m, GuestView(x)).value.stores);
         && |y.m.queues| == cfg.queues && q < |w.m.queues| && y.m.queues[q].available == w.m.queues[q].available
         && (y.m.queues[q].available == available <==> w.m.queues[q].available == available)
  {
    ResetCuts(cfg, w, a, q, available, used);
    NotFailed(cfg, w, a);
    hide Settled, ResetOk, Cut, Run, Reconcile, GuestView, Settle, Recoverable;
    var x := Cut(GuestReset(w, q, used), ResetStores(q, available, used), 1);
    var b := Rebase(a, q, w.m.queues[q].available, used);
    SettledRecoverable(cfg, x, b);
    ReconcileSettles(cfg, x, b);
    var y := Run(x, Reconcile(cfg, x.m, GuestView(x)).value.stores);
    CursorIs(cfg, y, b, q);
  }

  lemma {:induction false} NotFailed(cfg: Config, w: World, a: Model)
    requires Settled(cfg, w, a) && w.m.failed == 0
    ensures !a.failed
  {
  }

  lemma {:induction false} CursorIs(cfg: Config, y: World, b: Model, q: nat)
    requires Settled(cfg, y, Settle(b)) && q < cfg.queues && q < |b.cursors| && b.cursors[q].live
    ensures |y.m.queues| == cfg.queues && y.m.queues[q].available == b.cursors[q].available
  {
    SettledExact(cfg, y, Settle(b));
  }

  lemma {:induction false} CompletedRefuses(m: Memory, saved: seq<Saved>, guest: seq<Option<u16>>, q: nat, n: nat)
    requires q < n <= |m.queues| && n <= |guest| && Interrupted(m, saved, q, guest[q]).Err?
    ensures Completed(m, saved, guest, n).Err?
    decreases n
  {
    hide Interrupted;
    if q < n - 1 {
      CompletedRefuses(m, saved, guest, q, n - 1);
    }
  }

  lemma {:induction false} NobodySaved(saved: seq<Saved>, q: nat, h: nat)
    requires forall i | 0 <= i < |saved| :: saved[i].Where().queue != q
    ensures AtHead(saved, Id(q, h)).None?
    decreases |saved|
  {
    if saved != [] {
      assert forall i | 0 <= i < |saved[1..]| :: saved[1..][i] == saved[i + 1];
      NobodySaved(saved[1..], q, h);
    }
  }

  lemma {:induction false} QuietQueue(cfg: Config, w: World, a: Model, q: nat)
    requires Settled(cfg, w, a) && ResetOk(cfg, w.m, q)
    ensures Sized(cfg, w, a)
    ensures forall i | 0 <= i < |All(cfg, w.m)| :: All(cfg, w.m)[i].Where().queue != q
  {
    ResetQuiet(cfg, w, a, q);
    assert Sized(cfg, w, a) && ModelInv(cfg, a) && Matches(cfg, w, a);
    hide Settled, ModelInv, Matches, All, ResetOk;
    forall i | 0 <= i < |All(cfg, w.m)| ensures All(cfg, w.m)[i].Where().queue != q {
      AllMember(cfg, w, a, All(cfg, w.m)[i]);
    }
  }

  /**
   * Before the first store, reconciliation accepts exactly when the reset left
   * the guest's used index where the mapping has it.
   */
  lemma {:induction false} ResetUnseen(cfg: Config, w: World, a: Model, q: nat, used: u16)
    requires Settled(cfg, w, a) && ResetOk(cfg, w.m, q)
    ensures Sized(cfg, w, a) && q < |w.guest|
    ensures Reconcile(cfg, w.m, GuestView(GuestReset(w, q, used))).Ok? <==> used == w.m.queues[q].used
  {
    ResetQuiet(cfg, w, a, q);
    NotFailed(cfg, w, a);
    QuietQueue(cfg, w, a, q);
    LiveCursor(cfg, w, a, q);
    hide Settled, ResetOk, Recoverable, All, Settle, Completed;
    var g := GuestReset(w, q, used);
    if used == w.m.queues[q].used {
      assert g == w;
      SettledRecoverable(cfg, w, a);
      hide Reconcile, GuestView;
      ReconcileSettles(cfg, w, a);
    } else {
      NobodySaved(All(cfg, w.m), q, w.m.queues[q].lastHead);
      assert GuestView(g)[q] == Some(used);
      CompletedRefuses(w.m, All(cfg, w.m), GuestView(g), q, cfg.queues);
    }
  }

  lemma {:induction false} LiveCursor(cfg: Config, w: World, a: Model, q: nat)
    requires Settled(cfg, w, a) && q < cfg.queues && q < |w.m.queues| && w.m.queues[q].version == 1 && q < |w.guest|
    ensures w.guest[q] == w.m.queues[q].used
  {
    SettledExact(cfg, w, a);
    assert QueueRef(cfg, w, a, q);
  }

  // ----- both failures are reachable -----------------------------------------

  lemma {:induction false} QuietResets(cfg: Config, w: World, a: Model, q: nat)
    requires Settled(cfg, w, a) && q < cfg.queues && a.cursors[q].live && !a.failed
    requires forall id | id in a.owner && id.queue == q :: a.owner[id].Free?
    ensures ResetOk(cfg, w.m, q)
    ensures w.m.queues[q].available == a.cursors[q].available && w.m.queues[q].used == a.cursors[q].used
  {
    SettledExact(cfg, w, a);
    assert QueueRef(cfg, w, a, q);
    forall h | 0 <= h < cfg.size ensures w.m.cells[Id(q, h)].state == EMPTY && w.m.cells[Id(q, h)].inflight == 0 {
      assert CellRef(cfg, w, a, Id(q, h));
    }
  }

  /** The run that sets queue `q` up and does nothing else. */
  function Opened(q: nat, available: u16): seq<Event> { [Call(Initialize(q, available), 4)] }

  lemma {:induction false} OpenedIs(cfg: Config, prefix: nat, guest: seq<u16>, q: nat, available: u16)
    requires cfg.Valid() && prefix <= U64_MAX && |guest| == cfg.queues && q < cfg.queues
    ensures var s := Outcome(cfg, prefix, guest, Opened(q, available));
      && s.serving && s.a == Rebase(Fresh(cfg, prefix), q, available, guest[q])
      && Settled(cfg, s.w, s.a)
  {
    hide Settled, Safe, Cut, Run, Recoverable;
    OutcomeSafe(cfg, prefix, guest, Opened(q, available));
    var s0 := Sys(World(Created(cfg, prefix), guest), Fresh(cfg, prefix), true);
    assert Opened(q, available)[..0] == [];
    assert Exec(cfg, s0, Opened(q, available)) == Step(cfg, s0, Call(Initialize(q, available), 4));
    InitializeIs(cfg, s0.w, s0.a, q, available);
  }

  /**
   * On a created carrier whose queue was set up at `available`, the guest resets
   * its ring to `used` and the daemon is to follow with `rebased`. Killed before
   * it stores anything, its replacement is refused if the used index moved;
   * killed between the two stores, the replacement serves from `available`.
   */
  lemma {:induction false} ResetLoses(cfg: Config, prefix: nat, guest: seq<u16>, q: nat, available: u16, rebased: u16,
      used: u16)
    requires cfg.Valid() && prefix <= U64_MAX && |guest| == cfg.queues && q < cfg.queues
    requires used != guest[q] && rebased != available
    ensures var w := Outcome(cfg, prefix, guest, Opened(q, available)).w;
      && ResetOk(cfg, w.m, q) && Shaped(cfg, w.m) && |w.guest| == cfg.queues
      && var g := GuestReset(w, q, used);
         && Reconcile(cfg, w.m, GuestView(g)).Err?
         && var x := Cut(g, ResetStores(q, rebased, used), 1);
            && Shaped(cfg, x.m) && |x.guest| == cfg.queues
            && Reconcile(cfg, x.m, GuestView(x)).Ok?
            && var y := Run(x, Reconcile(cfg, x.m, GuestView(x)).value.stores);
               |y.m.queues| == cfg.queues && y.m.queues[q].available == available != rebased
  {
    hide Settled, Outcome, ResetOk, Cut, Run, Reconcile, GuestView, Recoverable;
    OpenedIs(cfg, prefix, guest, q, available);
    var s := Outcome(cfg, prefix, guest, Opened(q, available));
    FreshHeads(cfg, prefix);
    QuietResets(cfg, s.w, s.a, q);
    ResetUnseen(cfg, s.w, s.a, q, used);
    ResetHalfway(cfg, s.w, s.a, q, rebased, used);
  }

  lemma {:induction false} FreshHeads(cfg: Config, prefix: nat)
    ensures forall id | id in Fresh(cfg, prefix).owner :: Fresh(cfg, prefix).owner[id].Free?
    ensures |Fresh(cfg, prefix).cursors| == cfg.queues && !Fresh(cfg, prefix).failed
  {
  }

  /** One queue set up at 5 under a used index of 0; the ring is reset to 3, the cursor to 7. */
  lemma {:induction false} ResetFails()
    ensures var cfg := Config(1, 1, Identity(0, 0), 4096); var w := Outcome(cfg, 0, [0], Opened(0, 5)).w;
      && Shaped(cfg, w.m) && |w.guest| == 1
      && Reconcile(cfg, w.m, GuestView(GuestReset(w, 0, 3))).Err?
      && var x := Cut(GuestReset(w, 0, 3), ResetStores(0, 7, 3), 1);
         && Shaped(cfg, x.m) && |x.guest| == 1
         && Reconcile(cfg, x.m, GuestView(x)).Ok?
         && var y := Run(x, Reconcile(cfg, x.m, GuestView(x)).value.stores);
            |y.m.queues| == 1 && y.m.queues[0].available == 5
  {
    hide Outcome, Cut, Run, Reconcile, GuestView, Shaped;
    ResetLoses(Config(1, 1, Identity(0, 0), 4096), 0, [0], 0, 5, 7, 3);
  }
}
