/**
 * Reconciliation as a whole: it accepts every crash cut of an image that has
 * not failed, survives crashes of its own, ends settled, and replays exactly
 * the requests the guest is still waiting for.
 */
module InflightReconciliation {
  import opened Units
  import opened Sorting
  import opened InflightLayout
  import opened InflightModel
  import opened InflightRefinement
  import opened InflightRecovery
  import opened InflightReconcile
  import opened InflightRepair
  import opened InflightSoundness

  function RepairPart(done: seq<(Entry, u16)>, saved: seq<Saved>): seq<Store> {
    FinishAll(done) + RepairStores(done, saved)
  }

  function TailPart(c: Model, latest: Option<Saved>): seq<Store> {
    CursorStores(latest) + CountStores(|c.history|, c.mutation)
  }

  // ----- what is accepted and planned ----------------------------------------

  /** Reconciliation's result once every check has passed. */
  lemma {:induction false} PlanUnfold(cfg: Config, m: Memory, guest: seq<Option<u16>>, done: seq<(Entry, u16)>,
      serial: nat, mutation: nat)
    requires (forall id | cfg.Has(id) :: id in m.cells) && |m.queues| == cfg.queues && |guest| == cfg.queues
    requires HeaderOk(cfg, m) && ScanOk(cfg, m)
    requires Completed(m, All(cfg, m), guest, cfg.queues) == Ok(done)
    requires CursorOk(m, Latest(m, All(cfg, m)))
    requires HighestSerial(m, All(cfg, m)) == serial && HighestMutation(m.mutation, All(cfg, m)) == mutation
    ensures var saved := All(cfg, m); var latest := Latest(m, saved);
      Reconcile(cfg, m, guest) == Ok(Plan(
        RepairPart(done, saved) + (CursorStores(latest) + CountStores(serial, mutation)),
        Replay(Entries(done, saved), Sort(Waiting(done, saved), OrderOf()),
               if latest.Some? then latest.value.entry.discovery else m.discovery, serial, mutation, m.published)))
  {
    hide All, Latest, HighestSerial, HighestMutation, Completed, ScanOk, HeaderOk, CursorOk,
         Entries, Waiting, FinishAll, RepairStores, CursorStores, Sort;
    var saved := All(cfg, m);
    var latest := Latest(m, saved);
    assert RepairPart(done, saved) + (CursorStores(latest) + CountStores(serial, mutation)) ==
           FinishAll(done) + RepairStores(done, saved) + CursorStores(latest) +
             [HighSerial(serial), HighMutation(mutation)];
  }

  lemma {:induction false} Sizes(cfg: Config, w: World, a: Model)
    requires Matches(cfg, w, a)
    ensures Sized(cfg, w, a) && w.m.published == a.published
  {
  }

  lemma {:induction false} PlanIs(cfg: Config, w: World, a: Model)
    requires ModelInv(cfg, a) && Matches(cfg, w, a) && !a.failed
    ensures Sized(cfg, w, a)
    ensures var done := Late(w, a, cfg.queues); var saved := All(cfg, w.m);
      Reconcile(cfg, w.m, GuestView(w)) == Ok(Plan(
        RepairPart(done, saved) + TailPart(a, Latest(w.m, saved)),
        Replay(Entries(done, saved), Sort(Waiting(done, saved), OrderOf()), |a.found|, |a.history|, a.mutation,
          a.published)))
  {
    hide ModelInv, Matches, All, Late, Latest, HighestSerial, HighestMutation, GuestView, Completed,
         ScanOk, HeaderOk, CursorOk, Entries, Waiting, RepairPart, CursorStores, CountStores, Sort, Reconcile;
    Sizes(cfg, w, a);
    ScanAccepted(cfg, w, a);
    CompletedIs(cfg, w, a, cfg.queues);
    CursorAccepted(cfg, w, a);
    SerialRestored(cfg, w, a);
    MutationRestored(cfg, w, a);
    LatestRestored(cfg, w, a);
    PlanUnfold(cfg, w.m, GuestView(w), Late(w, a, cfg.queues), |a.history|, a.mutation);
  }

  // ----- every cut of the repair ---------------------------------------------

  /** The model, or the model with its published head given back. */
  predicate Along(a: Model, b: Model) { b == a || b == Settle(a) }

  lemma {:induction false} MidAlong(cfg: Config, x: World, a: Model, b: Model, f: Id)
    requires Along(a, b) && Mid(cfg, x, b, f)
    ensures Mid(cfg, x, a, f)
  {
    hide At, Settle;
    SettleTwice(a);
  }

  lemma {:induction false} DueIs(cfg: Config, w: World, a: Model)
    requires ModelInv(cfg, a) && Matches(cfg, w, a)
    ensures Due(cfg, a, Latest(w.m, All(cfg, w.m)))
    ensures Latest(w.m, All(cfg, w.m)).None? ==> w.m.discovery == |a.found|
  {
    LatestRestored(cfg, w, a);
    var latest := Latest(w.m, All(cfg, w.m));
    if latest.Some? {
      RecordBounds(cfg, w, a, latest.value);
    }
  }

  lemma {:induction false} DueAlong(cfg: Config, a: Model, b: Model, latest: Option<Saved>)
    requires Along(a, b) && Due(cfg, a, latest)
    ensures Due(cfg, b, latest)
    ensures TailPart(b, latest) == TailPart(a, latest)
  {
  }

  /** The mapping once the published completion is finished: the records are all still good. */
  ghost predicate Started(cfg: Config, x: World, b: Model, f: Id, done: seq<(Entry, u16)>, saved: seq<Saved>) {
    && At(cfg, x, b, f)
    && Apart(saved, WhereOf())
    && (forall i | 0 <= i < |saved| :: cfg.Has(saved[i].Where()) && Ready(cfg, x, b, done, saved[i]))
  }

  lemma {:induction false} FirstAlong(a: Model, done: seq<(Entry, u16)>)
    ensures Along(a, FirstModel(a, done))
  {
  }

  lemma {:induction false} FirstReached(cfg: Config, w: World, a: Model, f: Id)
    requires At(cfg, w, a, f) && !a.failed && Sized(cfg, w, a)
    ensures At(cfg, Run(w, FinishAll(Late(w, a, cfg.queues))), FirstModel(a, Late(w, a, cfg.queues)), f)
    ensures Apart(All(cfg, w.m), WhereOf())
  {
    hide At, ModelInv, Matches, Late, All, Mid, FinishAll, FirstModel, Cut, Run, Apart, Ascending;
    var done := Late(w, a, cfg.queues);
    FirstCut(cfg, w, a, f, |FinishAll(done)|);
    WholeCut(w, FinishAll(done));
    AtParts(cfg, w, a, f);
    AllApart(cfg, w, a);
  }

  lemma {:induction false} FirstState(cfg: Config, w: World, a: Model, f: Id)
    requires At(cfg, w, a, f) && !a.failed && Sized(cfg, w, a)
    ensures var done := Late(w, a, cfg.queues);
      Along(a, FirstModel(a, done)) &&
        Started(cfg, Run(w, FinishAll(done)), FirstModel(a, done), f, done, All(cfg, w.m))
  {
    hide At, ModelInv, Matches, Late, All, Run, FinishAll, FirstModel, Ready, Apart, Along;
    var done := Late(w, a, cfg.queues);
    var saved := All(cfg, w.m);
    FirstAlong(a, done);
    FirstReached(cfg, w, a, f);
    forall i | 0 <= i < |saved|
      ensures cfg.Has(saved[i].Where()) && Ready(cfg, Run(w, FinishAll(done)), FirstModel(a, done), done, saved[i])
    {
      RecordsReady(cfg, w, a, f, saved[i]);
    }
  }

  lemma {:induction false} SecondCut(cfg: Config, x: World, a: Model, b: Model, f: Id, done: seq<(Entry, u16)>,
      saved: seq<Saved>, k: nat)
    requires Started(cfg, x, b, f, done, saved) && Along(a, b) && k <= |RepairStores(done, saved)|
    ensures Mid(cfg, Cut(x, RepairStores(done, saved), k), a, f)
  {
    hide At, Ready, Apart, Mid, Cut, RepairStores, Along;
    assert saved[..|saved|] == saved;
    RepairCut(cfg, x, b, f, done, saved, |saved|, k);
    MidAlong(cfg, Cut(x, RepairStores(done, saved), k), a, b, f);
  }

  lemma {:induction false} RepairPartCut(cfg: Config, w: World, a: Model, f: Id, k: nat)
    requires At(cfg, w, a, f) && !a.failed && Sized(cfg, w, a)
    requires k <= |RepairPart(Late(w, a, cfg.queues), All(cfg, w.m))|
    ensures Mid(cfg, Cut(w, RepairPart(Late(w, a, cfg.queues), All(cfg, w.m)), k), a, f)
  {
    hide At, ModelInv, Matches, Late, All, Mid, Cut, FinishAll, RepairStores, Started, Along, Settle, FirstModel, Run;
    var done := Late(w, a, cfg.queues);
    var saved := All(cfg, w.m);
    var s := FinishAll(done);
    CutConcat(w, s, RepairStores(done, saved), k);
    if k <= |s| {
      FirstCut(cfg, w, a, f, k);
    } else {
      FirstState(cfg, w, a, f);
      SecondCut(cfg, Run(w, s), a, FirstModel(a, done), f, done, saved, k - |s|);
    }
  }

  // ----- where the repair ends -----------------------------------------------

  lemma {:induction false} NoNewOwner(a: Model, b: Model, id: Id)
    requires Along(a, b) && id in a.owner
    ensures id in b.owner && (b.owner[id] == a.owner[id] || (a.owner[id].Retiring? && b.owner[id].Free?))
  {
  }

  /** All owned heads were saved, so all are stable in the end. */
  lemma {:induction false} AllStable(cfg: Config, w: World, a: Model, x: World, c: Model, id: Id)
    requires ModelInv(cfg, a) && Matches(cfg, w, a) && Along(a, c) && cfg.Has(id) && id in x.m.cells
    requires forall i | 0 <= i < |All(cfg, w.m)| ::
      var j := All(cfg, w.m)[i].Where(); j in x.m.cells && j in c.owner && Stable(x, c, j)
    ensures id in c.owner && Stable(x, c, id)
  {
    Sizes(cfg, w, a);
    hide ModelInv, Matches, All, Stable;
    NoNewOwner(a, c, id);
    if c.owner[id].Free? {
      FreeStable(x, c, id);
    } else {
      OwnerRecorded(cfg, w, a, id);
    }
  }

  lemma {:induction false} FreeStable(x: World, c: Model, id: Id)
    requires id in x.m.cells && id in c.owner && c.owner[id].Free?
    ensures Stable(x, c, id)
  {
  }

  lemma {:induction false} StableSettles(cfg: Config, x: World, a: Model, c: Model)
    requires Along(a, c) && (forall id :: id in a.owner <==> cfg.Has(id))
    requires forall id | cfg.Has(id) :: id in x.m.cells && id in c.owner && Stable(x, c, id)
    ensures c == Settle(a)
  {
    if c == a {
      SettleNone(a);
    }
  }

  lemma {:induction false} AlongTwice(a: Model, b: Model, c: Model)
    requires Along(a, b) && Along(b, c)
    ensures Along(a, c)
  {
    SettleTwice(a);
  }

  lemma {:induction false} AlongIs(a: Model, b: Model)
    requires b == a || b == Settle(a)
    ensures Along(a, b)
  {
  }

  lemma {:induction false} AtHeads(cfg: Config, x: World, a: Model, f: Id)
    requires At(cfg, x, a, f)
    ensures forall id :: id in a.owner <==> cfg.Has(id)
    ensures forall id | cfg.Has(id) :: id in x.m.cells
  {
  }

  lemma {:induction false} DiscoveryFrame(x: World, stores: seq<Store>)
    requires forall i | 0 <= i < |stores| :: !stores[i].HighDiscovery?
    ensures Run(x, stores).m.discovery == x.m.discovery
    decreases |stores|
  {
    if stores != [] {
      DiscoveryFrame(Apply(x, stores[0]), stores[1..]);
    }
  }

  lemma {:induction false} FirstDiscovery(cfg: Config, w: World, a: Model, f: Id)
    requires At(cfg, w, a, f) && !a.failed && Sized(cfg, w, a)
    ensures Run(w, FinishAll(Late(w, a, cfg.queues))).m.discovery == w.m.discovery
  {
    hide At, ModelInv, Matches, Late, FinishAll, Run;
    AtParts(cfg, w, a, f);
    LateFacts(cfg, w, a, cfg.queues);
    FinishAllOne(Late(w, a, cfg.queues));
    DiscoveryFrame(w, FinishAll(Late(w, a, cfg.queues)));
  }

  /** The mapping after the saved records' repair. */
  lemma {:induction false} RepairPartState(cfg: Config, w: World, a: Model, f: Id)
    requires At(cfg, w, a, f) && !a.failed && Sized(cfg, w, a)
    ensures var x := Run(w, RepairPart(Late(w, a, cfg.queues), All(cfg, w.m)));
      && At(cfg, x, Settle(a), f)
      && x.m.discovery == w.m.discovery
      && (forall id | cfg.Has(id) :: id in x.m.cells && id in Settle(a).owner && Stable(x, Settle(a), id))
  {
    hide At, Late, All, Run, FinishAll, RepairStores, FirstModel, Ready, Apart, Along, Stable, Settle, AfterAll;
    var done := Late(w, a, cfg.queues);
    var saved := All(cfg, w.m);
    var x := Run(w, FinishAll(done));
    var b := FirstModel(a, done);
    FirstState(cfg, w, a, f);
    assert saved[..|saved|] == saved;
    RepairState(cfg, x, b, f, done, saved, |saved|);
    RunConcat(w, FinishAll(done), RepairStores(done, saved));
    var y := Run(x, RepairStores(done, saved));
    var c := AfterAll(b, done, saved);
    AlongIs(b, c);
    AlongTwice(a, b, c);
    AtParts(cfg, w, a, f);
    AtHeads(cfg, y, c, f);
    AtHeads(cfg, w, a, f);
    forall id | cfg.Has(id) ensures id in y.m.cells && id in c.owner && Stable(y, c, id) {
      AllStable(cfg, w, a, y, c, id);
    }
    StableSettles(cfg, y, a, c);
    FirstDiscovery(cfg, w, a, f);
  }

  // ----- the whole repair ----------------------------------------------------

  lemma {:induction false} LatestNone(cfg: Config, w: World, a: Model)
    requires ModelInv(cfg, a) && Matches(cfg, w, a) && Latest(w.m, All(cfg, w.m)).None?
    ensures w.m.discovery == |a.found|
    ensures forall id | cfg.Has(id) && id in Settle(a).owner && Settle(a).owner[id].Found? ::
      Settle(a).owner[id].discovery < |a.found|
  {
    LatestRestored(cfg, w, a);
  }

  lemma {:induction false} SettleNumbers(a: Model)
    ensures Settle(a).history == a.history && Settle(a).found == a.found && Settle(a).mutation == a.mutation
  {
  }

  lemma {:induction false} PlanCut(cfg: Config, w: World, a: Model, f: Id, k: nat)
    requires At(cfg, w, a, f) && !a.failed && Sized(cfg, w, a)
    requires var saved := All(cfg, w.m);
      k <= |RepairPart(Late(w, a, cfg.queues), saved) + TailPart(a, Latest(w.m, saved))|
    ensures var saved := All(cfg, w.m);
      Mid(cfg, Cut(w, RepairPart(Late(w, a, cfg.queues), saved) + TailPart(a, Latest(w.m, saved)), k), a, f)
  {
    hide At, ModelInv, Matches, Late, All, Latest, RepairPart, Due, Cut, Run, Settle, Stable, CursorStores, CountStores;
    var saved := All(cfg, w.m);
    var latest := Latest(w.m, saved);
    var s := RepairPart(Late(w, a, cfg.queues), saved);
    CutConcat(w, s, TailPart(a, latest), k);
    if k <= |s| {
      RepairPartCut(cfg, w, a, f, k);
    } else {
      RepairPartState(cfg, w, a, f);
      AtParts(cfg, w, a, f);
      DueIs(cfg, w, a);
      DueAlong(cfg, a, Settle(a), latest);
      TailCut(cfg, Run(w, s), Settle(a), f, latest, k - |s|);
    }
  }

  lemma {:induction false} PlanSettles(cfg: Config, w: World, a: Model, f: Id)
    requires At(cfg, w, a, f) && !a.failed && Sized(cfg, w, a)
    ensures var saved := All(cfg, w.m);
      Settled(cfg, Run(w, RepairPart(Late(w, a, cfg.queues), saved) + TailPart(a, Latest(w.m, saved))), Settle(a))
  {
    hide At, Settled, ModelInv, Matches, Late, All, Latest, RepairPart, Due, Run, Settle, Stable, CursorStores,
      CountStores;
    var saved := All(cfg, w.m);
    var latest := Latest(w.m, saved);
    var s := RepairPart(Late(w, a, cfg.queues), saved);
    RepairPartState(cfg, w, a, f);
    AtParts(cfg, w, a, f);
    DueIs(cfg, w, a);
    DueAlong(cfg, a, Settle(a), latest);
    SettleNumbers(a);
    if latest.None? {
      LatestNone(cfg, w, a);
    }
    TailSettles(cfg, Run(w, s), Settle(a), f, latest);
    RunConcat(w, s, TailPart(a, latest));
  }

  lemma {:induction false} MidRecoverable(cfg: Config, x: World, a: Model, f: Id)
    requires Mid(cfg, x, a, f)
    ensures Recoverable(cfg, x, a) || Recoverable(cfg, x, Settle(a))
  {
    hide ModelInv, Settle;
    if At(cfg, x, a, f) {
      assert Only(cfg, x, a, f);
    } else {
      assert Only(cfg, x, Settle(a), f);
    }
  }

  /**
   * Reconciliation accepts a recoverable mapping exactly when the image has not
   * failed; then any crash of the repair is again recoverable, and the finished
   * repair is settled with at most the published head given back.
   */
  lemma {:induction false} ReconcileSettles(cfg: Config, w: World, a: Model)
    requires Recoverable(cfg, w, a)
    ensures Sized(cfg, w, a)
    ensures var plan := Reconcile(cfg, w.m, GuestView(w));
      && (plan.Ok? <==> !a.failed)
      && (plan.Ok? ==>
            && Settled(cfg, Run(w, plan.value.stores), Settle(a))
            && (forall k | 0 <= k <= |plan.value.stores| ::
                  Recoverable(cfg, Cut(w, plan.value.stores, k), a) ||
                    Recoverable(cfg, Cut(w, plan.value.stores, k), Settle(a))))
  {
    RecoverableParts(cfg, w, a);
    hide Recoverable, Settled, At, ModelInv, Matches, Settle, Run, Cut, GuestView, Late, All, Latest, RepairPart,
      TailPart, Entries, Waiting, Sort, Mid, Reconcile;
    if a.failed {
      FailedRefused(cfg, w, a);
    } else {
      var f := SomeFocus(cfg, w, a);
      PlanIs(cfg, w, a);
      PlanSettles(cfg, w, a, f);
      var stores := Reconcile(cfg, w.m, GuestView(w)).value.stores;
      forall k | 0 <= k <= |stores|
        ensures Recoverable(cfg, Cut(w, stores, k), a) || Recoverable(cfg, Cut(w, stores, k), Settle(a))
      {
        PlanCut(cfg, w, a, f, k);
        MidRecoverable(cfg, Cut(w, stores, k), a, f);
      }
    }
  }

  lemma {:induction false} RecoverableParts(cfg: Config, w: World, a: Model)
    requires Recoverable(cfg, w, a)
    ensures ModelInv(cfg, a) && Matches(cfg, w, a) && Sized(cfg, w, a)
  {
  }

  lemma {:induction false} FailedRefused(cfg: Config, w: World, a: Model)
    requires Matches(cfg, w, a) && Sized(cfg, w, a) && a.failed
    ensures Reconcile(cfg, w.m, GuestView(w)).Err?
  {
    assert w.m.failed == 1;
    hide ScanOk, Completed, Latest, All, GuestView;
  }

  // ----- what is replayed ----------------------------------------------------

  /** A record is restarted, or kept waiting, exactly as its head is owned. */
  lemma {:induction false} DisposeIs(cfg: Config, w: World, a: Model, f: Id, r: Saved)
    requires At(cfg, w, a, f) && !a.failed && Sized(cfg, w, a) && r in All(cfg, w.m)
    ensures cfg.Has(r.Where()) && Fits(cfg, w, a, r)
    ensures Dispose(Late(w, a, cfg.queues), r) == Restart <==> a.owner[r.Where()].Admitted?
    ensures Dispose(Late(w, a, cfg.queues), r) == Keep <==> a.owner[r.Where()].Found?
  {
    hide At, ModelInv, Matches, Late, All, Run, FinishAll, FirstModel, Ready, Apart, Along, Dispose, Fits;
    var done := Late(w, a, cfg.queues);
    AtParts(cfg, w, a, f);
    RecordBounds(cfg, w, a, r);
    FirstState(cfg, w, a, f);
    var i :| 0 <= i < |All(cfg, w.m)| && All(cfg, w.m)[i] == r;
    DisposeOwner(cfg, Run(w, FinishAll(done)), FirstModel(a, done), f, done, r);
    NoNewOwner(a, FirstModel(a, done), r.Where());
  }

  lemma {:induction false} EntriesMember(done: seq<(Entry, u16)>, saved: seq<Saved>, e: Entry)
    ensures e in Entries(done, saved) <==>
      exists i | 0 <= i < |saved| :: saved[i].entry == e && Dispose(done, saved[i]) == Restart
    decreases |saved|
  {
    hide Dispose;
    if saved != [] {
      var rest := saved[..|saved| - 1];
      EntriesMember(done, rest, e);
      assert forall i | 0 <= i < |rest| :: rest[i] == saved[i];
    }
  }

  lemma {:induction false} WaitingMember(done: seq<(Entry, u16)>, saved: seq<Saved>, p: (nat, Request))
    ensures p in Waiting(done, saved) <==>
      exists i | 0 <= i < |saved| ::
        (saved[i].entry.discovery, saved[i].entry.request) == p && Dispose(done, saved[i]) == Keep
    decreases |saved|
  {
    hide Dispose;
    if saved != [] {
      var rest := saved[..|saved| - 1];
      WaitingMember(done, rest, p);
      assert forall i | 0 <= i < |rest| :: rest[i] == saved[i];
    }
  }

  /** Entries keep the saved order, which is by serial. */
  lemma {:induction false} EntriesAscending(done: seq<(Entry, u16)>, saved: seq<Saved>)
    requires forall i, j | 0 <= i < j < |saved| :: saved[i].entry.serial <= saved[j].entry.serial
    requires forall i, j | 0 <= i < j < |saved| && saved[i].entry.serial == saved[j].entry.serial ::
      saved[i].entry.serial == 0
    requires forall i | 0 <= i < |saved| && Dispose(done, saved[i]) == Restart :: saved[i].entry.serial > 0
    ensures forall i, j | 0 <= i < j < |Entries(done, saved)| ::
      Entries(done, saved)[i].serial < Entries(done, saved)[j].serial
    decreases |saved|
  {
    hide Dispose;
    if saved != [] {
      var rest := saved[..|saved| - 1];
      var last := saved[|saved| - 1];
      EntriesAscending(done, rest);
      forall e | e in Entries(done, rest) ensures e.serial < last.entry.serial || last.entry.serial == 0 {
        EntriesMember(done, rest, e);
        var i :| 0 <= i < |rest| && rest[i].entry == e;
        assert saved[i] == rest[i];
      }
    }
  }

  lemma {:induction false} WaitingApart(done: seq<(Entry, u16)>, saved: seq<Saved>)
    requires forall i, j | 0 <= i < j < |saved| :: saved[i].entry.discovery != saved[j].entry.discovery
    ensures Apart(Waiting(done, saved), OrderOf())
    decreases |saved|
  {
    hide Dispose;
    if saved != [] {
      var rest := saved[..|saved| - 1];
      var last := saved[|saved| - 1];
      WaitingApart(done, rest);
      var before := Waiting(done, rest);
      forall i | 0 <= i < |before| ensures before[i].0 != last.entry.discovery {
        WaitingMember(done, rest, before[i]);
        var k :| 0 <= k < |rest| && (rest[k].entry.discovery, rest[k].entry.request) == before[i];
        assert saved[k] == rest[k];
      }
      var s := Waiting(done, saved);
      forall i, j | 0 <= i < j < |s| ensures OrderOf()(s[i]) != OrderOf()(s[j]) {
        if j < |before| {
          assert OrderOf()(before[i]) != OrderOf()(before[j]);
        }
      }
    }
  }

  /** The replay is the model's own account of what the guest still waits for. */
  ghost predicate Exact(cfg: Config, a: Model, replay: Replay) {
    && (forall i, j | 0 <= i < j < |replay.entries| :: replay.entries[i].serial < replay.entries[j].serial)
    && (forall e :: e in replay.entries <==> Holds(cfg, a, e.request.Where(), Admitted(e)))
    && (forall i, j | 0 <= i < j < |replay.discovered| :: replay.discovered[i].0 < replay.discovered[j].0)
    && (forall p :: p in replay.discovered <==> Holds(cfg, a, p.1.Where(), Found(p.1, p.0)))
    && replay.discovery == |a.found| && replay.serial == |a.history|
    && replay.mutation == a.mutation && replay.published == a.published
  }

  predicate Holds(cfg: Config, a: Model, id: Id, o: Owner) {
    cfg.Has(id) && id in a.owner && a.owner[id] == o
  }

  lemma {:induction false} EntryReplayed(cfg: Config, w: World, a: Model, f: Id, e: Entry)
    requires At(cfg, w, a, f) && !a.failed && Sized(cfg, w, a)
    ensures e in Entries(Late(w, a, cfg.queues), All(cfg, w.m)) <==> Holds(cfg, a, e.request.Where(), Admitted(e))
  {
    hide At, ModelInv, Matches, Late, All, Entries, Dispose;
    AtParts(cfg, w, a, f);
    var done := Late(w, a, cfg.queues);
    var saved := All(cfg, w.m);
    EntriesMember(done, saved, e);
    if e in Entries(done, saved) {
      var i :| 0 <= i < |saved| && saved[i].entry == e && Dispose(done, saved[i]) == Restart;
      DisposeIs(cfg, w, a, f, saved[i]);
    }
    if Holds(cfg, a, e.request.Where(), Admitted(e)) {
      OwnerRecorded(cfg, w, a, e.request.Where());
      var i :| 0 <= i < |saved| && saved[i] == RecordOf(cfg, w, a, e.request.Where());
      DisposeIs(cfg, w, a, f, saved[i]);
    }
  }

  lemma {:induction false} FoundReplayed(cfg: Config, w: World, a: Model, f: Id, p: (nat, Request))
    requires At(cfg, w, a, f) && !a.failed && Sized(cfg, w, a)
    ensures p in Waiting(Late(w, a, cfg.queues), All(cfg, w.m)) <==> Holds(cfg, a, p.1.Where(), Found(p.1, p.0))
  {
    hide At, ModelInv, Matches, Late, All, Waiting, Dispose;
    AtParts(cfg, w, a, f);
    var done := Late(w, a, cfg.queues);
    var saved := All(cfg, w.m);
    WaitingMember(done, saved, p);
    if p in Waiting(done, saved) {
      var i :|
        0 <= i < |saved| && (saved[i].entry.discovery, saved[i].entry.request) == p && Dispose(done, saved[i]) == Keep;
      DisposeIs(cfg, w, a, f, saved[i]);
    }
    if Holds(cfg, a, p.1.Where(), Found(p.1, p.0)) {
      OwnerRecorded(cfg, w, a, p.1.Where());
      var i :| 0 <= i < |saved| && saved[i] == RecordOf(cfg, w, a, p.1.Where());
      DisposeIs(cfg, w, a, f, saved[i]);
    }
  }

  lemma {:induction false} EntriesOrdered(cfg: Config, w: World, a: Model, f: Id)
    requires At(cfg, w, a, f) && !a.failed && Sized(cfg, w, a)
    ensures var es := Entries(Late(w, a, cfg.queues), All(cfg, w.m));
      forall i, j | 0 <= i < j < |es| :: es[i].serial < es[j].serial
  {
    hide At, ModelInv, Matches, Late, All, Entries, Dispose;
    AtParts(cfg, w, a, f);
    var done := Late(w, a, cfg.queues);
    var saved := All(cfg, w.m);
    AllApart(cfg, w, a);
    DistinctAccepted(cfg, w, a);
    forall i, j | 0 <= i < j < |saved| ensures saved[i].entry.serial <= saved[j].entry.serial {
      assert SerialOf()(saved[i]) <= SerialOf()(saved[j]);
    }
    forall i | 0 <= i < |saved| && Dispose(done, saved[i]) == Restart ensures saved[i].entry.serial > 0 {
      DisposeIs(cfg, w, a, f, saved[i]);
      SerialPositive(cfg, a, saved[i].Where());
    }
    EntriesAscending(done, saved);
  }

  lemma {:induction false} WaitingOrdered(cfg: Config, w: World, a: Model)
    requires ModelInv(cfg, a) && Matches(cfg, w, a) && Sized(cfg, w, a)
    ensures var ds := Sort(Waiting(Late(w, a, cfg.queues), All(cfg, w.m)), OrderOf());
      forall i, j | 0 <= i < j < |ds| :: ds[i].0 < ds[j].0
  {
    hide ModelInv, Matches, Late, All, Waiting, Sort;
    var ds := Waiting(Late(w, a, cfg.queues), All(cfg, w.m));
    DistinctAccepted(cfg, w, a);
    WaitingApart(Late(w, a, cfg.queues), All(cfg, w.m));
    SortApart(ds, OrderOf(), OrderOf());
    SortAscending(ds, OrderOf());
    var t := Sort(ds, OrderOf());
    forall i, j | 0 <= i < j < |t| ensures t[i].0 < t[j].0 {
      assert OrderOf()(t[i]) <= OrderOf()(t[j]) && OrderOf()(t[i]) != OrderOf()(t[j]);
    }
  }

  lemma {:induction false} ReplayIs(cfg: Config, w: World, a: Model, f: Id)
    requires At(cfg, w, a, f) && !a.failed && Sized(cfg, w, a)
    ensures var done := Late(w, a, cfg.queues); var saved := All(cfg, w.m);
      Exact(cfg, a, Replay(Entries(done, saved), Sort(Waiting(done, saved), OrderOf()), |a.found|, |a.history|,
        a.mutation, a.published))
  {
    hide At, ModelInv, Matches, Late, All, Entries, Waiting, Sort, Holds;
    var done := Late(w, a, cfg.queues);
    var saved := All(cfg, w.m);
    EntriesOrdered(cfg, w, a, f);
    AtParts(cfg, w, a, f);
    WaitingOrdered(cfg, w, a);
    forall e ensures e in Entries(done, saved) <==> Holds(cfg, a, e.request.Where(), Admitted(e)) {
      EntryReplayed(cfg, w, a, f, e);
    }
    forall p ensures p in Sort(Waiting(done, saved), OrderOf()) <==> Holds(cfg, a, p.1.Where(), Found(p.1, p.0)) {
      FoundReplayed(cfg, w, a, f, p);
      SortMember(Waiting(done, saved), OrderOf(), p);
    }
  }

  /**
   * What a replacement is told to replay: exactly the admitted requests in
   * serial order, exactly the discovered ones in discovery order, and the
   * counters to go on from.
   */
  lemma {:induction false} ReplayExact(cfg: Config, w: World, a: Model)
    requires Recoverable(cfg, w, a) && !a.failed
    ensures Sized(cfg, w, a)
    ensures Reconcile(cfg, w.m, GuestView(w)).Ok?
    ensures Exact(cfg, a, Reconcile(cfg, w.m, GuestView(w)).value.replay)
  {
    RecoverableParts(cfg, w, a);
    hide Recoverable, At, ModelInv, Matches, GuestView, Late, All, Latest, RepairPart, TailPart, Entries, Waiting,
      Sort, Reconcile, Exact;
    var f := SomeFocus(cfg, w, a);
    PlanIs(cfg, w, a);
    ReplayIs(cfg, w, a, f);
  }
}
