/**
 * Whole runs of the carrier: any interleaving of calls, each cut short by a
 * crash after any of its stores, and of reconciliations, cut short likewise.
 */
module InflightRuns {
  import opened Units
  import opened InflightLayout
  import opened InflightModel
  import opened InflightRefinement
  import opened InflightOperations
  import opened InflightRecovery
  import opened InflightRepair
  import opened InflightReconciliation

  /** `delivered` says whether the guest's used ring took the completion. */
  datatype Op =
    | Initialize(queue: nat, available: u16)
    | Discover(request: Request)
    | Enter(request: Request, rejected: bool)
    | Advance(prefix: nat)
    | Complete(entry: Entry, used: u16, delivered: bool)
    | Retire(entry: Entry, used: u16, delivered: bool)
    | Poison

  predicate OpOk(cfg: Config, m: Memory, op: Op) {
    match op
    case Initialize(q, _) => InitializeOk(cfg, m, q)
    case Discover(r) => DiscoverOk(cfg, m, r)
    case Enter(r, rejected) => AdmitOk(cfg, m, r, rejected)
    case Advance(prefix) => m.failed == 0 && m.published <= prefix <= m.mutation
    case Complete(e, used, _) => CompleteOk(cfg, m, e, used, false)
    case Retire(e, used, _) => CompleteOk(cfg, m, e, used, true)
    case Poison => true
  }

  /** The entry an admission stores, and whether it discovers its head first. */
  function Entering(cfg: Config, m: Memory, r: Request, rejected: bool): (bool, Entry) {
    if r.Where() in m.cells && m.cells[r.Where()].state != EMPTY
    then (false, IssuedEntry(cfg, m, r, rejected, m.cells[r.Where()].discovery))
    else (true, IssuedEntry(cfg, m, r, rejected, m.discovery + 1))
  }

  function OpStores(cfg: Config, w: World, op: Op): seq<Store> {
    match op
    case Initialize(q, available) => InitializeStores(cfg, q, available, if q < |w.guest| then w.guest[q] else 0)
    case Discover(r) => DiscoverStores(cfg, w.m, r)
    case Enter(r, rejected) =>
      var e := Entering(cfg, w.m, r, rejected);
      (if e.0 then DiscoverStores(cfg, w.m, r) else []) + AdmitStores(e.1)
    case Advance(prefix) => [Prefix(prefix)]
    case Complete(e, used, delivered) => if delivered then CompleteStores(e, used) else RefusedStores(e) + [Fail]
    case Retire(e, used, delivered) => if delivered then CompleteStores(e, used) else RefusedStores(e)
    case Poison => [Fail]
  }

  // ----- the model after a crash `k` stores into a call ----------------------

  function Discovered(a: Model, r: Request, k: nat): Model
    requires r.queue < |a.cursors|
  {
    if k <= 9 then a else Find(a, r)
  }

  function Entered(cfg: Config, a: Model, r: Request, rejected: bool, k: nat): Model
    requires r.Where() in a.owner && a.owner[r.Where()].Found?
  {
    if k <= 4 then a else Admit(cfg, a, r, rejected)
  }

  function Completing(a: Model, e: Entry, success: bool, k: nat): Model
    requires e.request.queue < |a.cursors|
  {
    if k <= 2 then a else if k < 6 then Use(a, e, success) else Release(Use(a, e, success), e.request.Where())
  }

  function OpModel(cfg: Config, w: World, a: Model, op: Op, k: nat): Model {
    match op
    case Initialize(q, available) =>
      if k < 4 || q >= |a.cursors| || q >= |w.guest| then a else Rebase(a, q, available, w.guest[q])
    case Discover(r) =>
      if r.queue < |a.cursors| then Discovered(a, r, k) else a
    case Enter(r, rejected) =>
      if r.queue >= |a.cursors| || r.Where() !in a.owner then a
      else if a.owner[r.Where()].Found? then Entered(cfg, a, r, rejected, k)
      else if k <= 12 then Discovered(a, r, k)
      else Entered(cfg, Find(a, r), r, rejected, k - 12)
    case Advance(prefix) => if k == 0 then a else a.(published := prefix)
    case Complete(e, _, delivered) =>
      if e.request.queue >= |a.cursors| then a
      else if delivered then Completing(a, e, true, k)
      else if k < 3 then a else a.(failed := true)
    case Retire(e, _, delivered) =>
      if e.request.queue >= |a.cursors| || !delivered then a else Completing(a, e, false, k)
    case Poison => if k == 0 then a else a.(failed := true)
  }

  /** A cut of a call: recoverable, and settled if the call was let finish. */
  ghost predicate Survives(cfg: Config, w: World, stores: seq<Store>, k: nat, b: Model)
    requires k <= |stores|
  {
    Recoverable(cfg, Cut(w, stores, k), b) && (k == |stores| ==> Settled(cfg, Cut(w, stores, k), b))
  }

  lemma {:induction false} AtSurvives(cfg: Config, x: World, a: Model, f: Id)
    requires At(cfg, x, a, f)
    ensures Recoverable(cfg, x, a)
  {
    assert Only(cfg, x, a, f);
  }

  lemma {:induction false} SettledRecoverable(cfg: Config, x: World, a: Model)
    requires Settled(cfg, x, a)
    ensures Recoverable(cfg, x, a)
  {
    assert Only(cfg, x, a, Id(0, 0));
  }

  lemma {:induction false} InitializeSurvives(cfg: Config, w: World, a: Model, q: nat, available: u16, k: nat)
    requires Settled(cfg, w, a) && InitializeOk(cfg, w.m, q) && k <= 4
    ensures Survives(cfg, w, OpStores(cfg, w, Initialize(q, available)), k,
      OpModel(cfg, w, a, Initialize(q, available), k))
  {
    DormantFacts(cfg, w, a, q);
    hide Settled, Recoverable, Cut;
    InitializeCut(cfg, w, a, q, available, k);
    SettledRecoverable(cfg, Cut(w, OpStores(cfg, w, Initialize(q, available)), k),
      OpModel(cfg, w, a, Initialize(q, available), k));
  }

  lemma {:induction false} DiscoverSurvives(cfg: Config, w: World, a: Model, r: Request, k: nat)
    requires Settled(cfg, w, a) && DiscoverOk(cfg, w.m, r) && k <= 12
    ensures CanFind(cfg, a, r)
    ensures Survives(cfg, w, DiscoverStores(cfg, w.m, r), k, Discovered(a, r, k))
  {
    hide Settled, Recoverable, Cut;
    DiscoverGuard(cfg, w, a, r);
    DiscoverCut(cfg, w, a, r, k);
    var x := Cut(w, DiscoverStores(cfg, w.m, r), k);
    if k <= 9 {
      SettledRecoverable(cfg, x, a);
    } else {
      AtSurvives(cfg, x, Find(a, r), r.Where());
    }
  }

  lemma {:induction false} AdmitSurvives(cfg: Config, w: World, a: Model, e: Entry, k: nat)
    requires Settled(cfg, w, a) && Admits(cfg, a, e) && k <= 10
    ensures Survives(cfg, w, AdmitStores(e), k, Entered(cfg, a, e.request, e.rejected, k))
  {
    hide Settled, Recoverable, Cut;
    AdmitCut(cfg, w, a, e, k);
    var x := Cut(w, AdmitStores(e), k);
    if k <= 4 {
      SettledRecoverable(cfg, x, a);
    } else {
      AtSurvives(cfg, x, Admit(cfg, a, e.request, e.rejected), e.request.Where());
    }
  }

  lemma {:induction false} CompleteSurvives(cfg: Config, w: World, a: Model, e: Entry, used: u16, error: bool, k: nat)
    requires Settled(cfg, w, a) && CompleteOk(cfg, w.m, e, used, error) && k <= 6
    ensures CanComplete(a, e, used, error)
    ensures Survives(cfg, w, CompleteStores(e, used), k, Completing(a, e, !error, k))
  {
    hide Settled, Recoverable, Cut, CompleteOk;
    CompleteGuard(cfg, w, a, e, used, error);
    CompleteCut(cfg, w, a, e, used, error, k);
    var x := Cut(w, CompleteStores(e, used), k);
    if k <= 2 {
      SettledRecoverable(cfg, x, a);
    } else if k < 6 {
      AtSurvives(cfg, x, Use(a, e, !error), e.request.Where());
    } else {
      SettledRecoverable(cfg, x, Release(Use(a, e, !error), e.request.Where()));
    }
  }

  lemma {:induction false} RefusedSurvives(cfg: Config, w: World, a: Model, e: Entry, used: u16, error: bool, k: nat)
    requires Settled(cfg, w, a) && CompleteOk(cfg, w.m, e, used, error) && k <= 2
    ensures Settled(cfg, Cut(w, RefusedStores(e), k), a)
    ensures Survives(cfg, w, RefusedStores(e), k, a)
  {
    hide Settled, Recoverable, Cut, CompleteOk;
    CompleteGuard(cfg, w, a, e, used, error);
    RefusedCut(cfg, w, a, e, k);
    SettledRecoverable(cfg, Cut(w, RefusedStores(e), k), a);
  }

  lemma {:induction false} FailSurvives(cfg: Config, w: World, a: Model, k: nat)
    requires Settled(cfg, w, a) && k <= 1
    ensures Survives(cfg, w, [Fail], k, if k == 0 then a else a.(failed := true))
  {
    hide Settled, Recoverable;
    var s := [Fail];
    assert s[..0] == [];
    if k == 0 {
      SettledRecoverable(cfg, w, a);
    } else {
      CutStep(w, s, 0);
      FailStore(cfg, w, a);
      SettledRecoverable(cfg, Cut(w, s, 1), a.(failed := true));
    }
  }

  lemma {:induction false} AdvanceSurvives(cfg: Config, w: World, a: Model, prefix: nat, k: nat)
    requires Settled(cfg, w, a) && OpOk(cfg, w.m, Advance(prefix)) && k <= 1
    ensures CanPublish(a, prefix)
    ensures Survives(cfg, w, [Prefix(prefix)], k, if k == 0 then a else a.(published := prefix))
  {
    SettledExact(cfg, w, a);
    assert w.m.published == a.published && (w.m.failed == 0 <==> !a.failed);
    hide Settled, Recoverable;
    var s := [Prefix(prefix)];
    assert s[..0] == [];
    if k == 0 {
      SettledRecoverable(cfg, w, a);
    } else {
      CutStep(w, s, 0);
      PrefixStore(cfg, w, a, prefix);
      SettledRecoverable(cfg, Cut(w, s, 1), a.(published := prefix));
    }
  }

  lemma {:induction false} RefusalSurvives(cfg: Config, w: World, a: Model, e: Entry, used: u16, k: nat)
    requires Settled(cfg, w, a) && CompleteOk(cfg, w.m, e, used, false) && k <= 3
    ensures Survives(cfg, w, RefusedStores(e) + [Fail], k, if k < 3 then a else a.(failed := true))
  {
    hide Settled, Recoverable, Cut, CompleteOk, RefusedStores, Run;
    RefusedLength(e);
    var s := RefusedStores(e);
    CutConcat(w, s, [Fail], k);
    if k <= 2 {
      RefusedSurvives(cfg, w, a, e, used, false, k);
    } else {
      RefusedSurvives(cfg, w, a, e, used, false, 2);
      WholeRun(w, s);
      FailSurvives(cfg, Run(w, s), a, 1);
    }
  }

  lemma {:induction false} RefusedLength(e: Entry)
    ensures |RefusedStores(e)| == 2
  {
  }

  lemma {:induction false} WholeRun(x: World, s: seq<Store>)
    ensures Cut(x, s, |s|) == Run(x, s)
  {
    assert s[..|s|] == s;
  }

  /** An admission issues the next serial and, to a mutation, the next number. */
  lemma {:induction false} EnteringIs(cfg: Config, w: World, a: Model, r: Request, rejected: bool)
    requires Settled(cfg, w, a) && AdmitOk(cfg, w.m, r, rejected)
    ensures r.Where() in a.owner && r.queue < |a.cursors|
    ensures a.owner[r.Where()].Found? <==> !Entering(cfg, w.m, r, rejected).0
    ensures a.owner[r.Where()].Found? ==> Admits(cfg, a, Entering(cfg, w.m, r, rejected).1)
    ensures !a.owner[r.Where()].Found? ==>
      DiscoverOk(cfg, w.m, r) && CanFind(cfg, a, r) && Admits(cfg, Find(a, r), Entering(cfg, w.m, r, rejected).1)
    ensures var e := Entering(cfg, w.m, r, rejected).1; e.request == r && e.rejected == rejected
  {
    hide Settled, DiscoverOk, ReadSlot;
    AdmitGuard(cfg, w, a, r, rejected);
    EnteringHead(cfg, w, a, r);
    DiscoverGuard(cfg, w, a, r);
    EnteringNumbers(cfg, w, a);
  }

  lemma {:induction false} EnteringNumbers(cfg: Config, w: World, a: Model)
    requires Settled(cfg, w, a)
    ensures w.m.discovery == |a.found| && w.m.serial == |a.history| && w.m.mutation == a.mutation
  {
    SettledExact(cfg, w, a);
  }

  lemma {:induction false} EnteringHead(cfg: Config, w: World, a: Model, r: Request)
    requires Settled(cfg, w, a) && cfg.Has(r.Where())
    ensures r.Where() in a.owner && r.Where() in w.m.cells && r.queue < |a.cursors|
    ensures a.owner[r.Where()].Found? ==> w.m.cells[r.Where()].discovery == a.owner[r.Where()].discovery
    ensures a.owner[r.Where()].Free? <==> w.m.cells[r.Where()].state == EMPTY
  {
    assert CellRef(cfg, w, a, r.Where());
  }

  lemma {:induction false} EnterSurvives(cfg: Config, w: World, a: Model, r: Request, rejected: bool, k: nat)
    requires Settled(cfg, w, a) && AdmitOk(cfg, w.m, r, rejected)
    requires k <= |OpStores(cfg, w, Enter(r, rejected))|
    ensures Survives(cfg, w, OpStores(cfg, w, Enter(r, rejected)), k, OpModel(cfg, w, a, Enter(r, rejected), k))
  {
    hide Settled, AdmitOk, Admits, Survives, Discovered, Entered, Cut, DiscoverStores, AdmitStores, Entering;
    EnteringIs(cfg, w, a, r, rejected);
    var e := Entering(cfg, w.m, r, rejected).1;
    StoreCounts(cfg, w.m, r, e);
    if a.owner[r.Where()].Found? {
      assert OpStores(cfg, w, Enter(r, rejected)) == AdmitStores(e);
      AdmitSurvives(cfg, w, a, e, k);
    } else {
      EnterFresh(cfg, w, a, e, k);
    }
  }

  lemma {:induction false} StoreCounts(cfg: Config, m: Memory, r: Request, e: Entry)
    ensures |DiscoverStores(cfg, m, r)| == 12 && |AdmitStores(e)| == 10
  {
  }

  lemma {:induction false} EnterFresh(cfg: Config, w: World, a: Model, e: Entry, k: nat)
    requires Settled(cfg, w, a) && DiscoverOk(cfg, w.m, e.request) && CanFind(cfg, a, e.request) &&
      Admits(cfg, Find(a, e.request), e)
    requires k <= |DiscoverStores(cfg, w.m, e.request) + AdmitStores(e)|
    ensures Survives(cfg, w, DiscoverStores(cfg, w.m, e.request) + AdmitStores(e), k,
      if k <= 12 then Discovered(a, e.request, k) else Entered(cfg, Find(a, e.request), e.request, e.rejected, k - 12))
  {
    hide Settled, Recoverable, Admits, Cut, DiscoverStores, AdmitStores, Run, DiscoverOk;
    StoreCounts(cfg, w.m, e.request, e);
    var s := DiscoverStores(cfg, w.m, e.request);
    var t := AdmitStores(e);
    CutConcat(w, s, t, k);
    if k <= 12 {
      DiscoverSurvives(cfg, w, a, e.request, k);
    } else {
      DiscoverSurvives(cfg, w, a, e.request, 12);
      WholeRun(w, s);
      AdmitSurvives(cfg, Run(w, s), Find(a, e.request), e, k - 12);
    }
  }

  /** Every cut of every call a settled carrier accepts. */
  lemma {:induction false} OpSurvives(cfg: Config, w: World, a: Model, op: Op, k: nat)
    requires Settled(cfg, w, a) && OpOk(cfg, w.m, op) && k <= |OpStores(cfg, w, op)|
    ensures Survives(cfg, w, OpStores(cfg, w, op), k, OpModel(cfg, w, a, op, k))
  {
    hide Settled, Survives, InitializeOk, DiscoverOk, AdmitOk, CompleteOk, CanComplete, CanFind, Discovered, Completing;
    match op
    case Initialize(q, available) => InitializeSurvives(cfg, w, a, q, available, k);
    case Discover(r) =>
      StoreCounts(cfg, w.m, r, IssuedEntry(cfg, w.m, r, false, 0));
      DiscoverSurvives(cfg, w, a, r, k);
      FindQueue(cfg, a, r);
    case Enter(r, rejected) => EnterSurvives(cfg, w, a, r, rejected, k);
    case Advance(prefix) => AdvanceSurvives(cfg, w, a, prefix, k);
    case Complete(e, used, delivered) =>
      CompleteQueue(cfg, w, a, e, used, false);
      if delivered { CompleteSurvives(cfg, w, a, e, used, false, k); } else { RefusalSurvives(cfg, w, a, e, used, k); }
    case Retire(e, used, delivered) =>
      CompleteQueue(cfg, w, a, e, used, true);
      if delivered {
        CompleteSurvives(cfg, w, a, e, used, true, k);
      } else {
        RefusedSurvives(cfg, w, a, e, used, true, k);
      }
    case Poison => FailSurvives(cfg, w, a, k);
  }

  lemma {:induction false} FindQueue(cfg: Config, a: Model, r: Request)
    requires CanFind(cfg, a, r)
    ensures r.queue < |a.cursors|
  {
  }

  lemma {:induction false} CompleteQueue(cfg: Config, w: World, a: Model, e: Entry, used: u16, error: bool)
    requires Settled(cfg, w, a) && CompleteOk(cfg, w.m, e, used, error)
    ensures e.request.queue < |a.cursors|
  {
    CompleteGuard(cfg, w, a, e, used, error);
  }

  // ----- frontend reset ------------------------------------------------------

  /** The mapping and the guest after a whole reset of a quiesced queue. */
  function Rebased(w: World, q: nat, available: u16, used: u16): World
    requires q < |w.m.queues| && q < |w.guest|
  {
    World(w.m.(queues := w.m.queues[q := w.m.queues[q].(used := used, available := available)]), w.guest[q := used])
  }

  lemma {:induction false} ResetQuiet(cfg: Config, w: World, a: Model, q: nat)
    requires Settled(cfg, w, a) && ResetOk(cfg, w.m, q)
    ensures |w.m.queues| == cfg.queues && |w.guest| == cfg.queues && |a.cursors| == cfg.queues
    ensures forall id | id in a.owner && id.queue == q :: a.owner[id].Free?
    ensures var s := w.m.queues[q];
      s.version == 1 && s.descriptors == cfg.size && s.features == 0 && s.lastHead < cfg.size
  {
    SettledExact(cfg, w, a);
    assert QueueRef(cfg, w, a, q);
    forall id | id in a.owner && id.queue == q ensures a.owner[id].Free? {
      assert id == Id(q, id.head);
    }
  }

  lemma {:induction false} ResetSettles(cfg: Config, w: World, a: Model, q: nat, available: u16, used: u16)
    requires Settled(cfg, w, a) && ResetOk(cfg, w.m, q) && q < |w.guest| && q < |a.cursors|
    ensures Settled(cfg, Rebased(w, q, available, used), Rebase(a, q, available, used))
  {
    hide Settled, ResetOk;
    ResetQuiet(cfg, w, a, q);
    NewQueue(cfg, w, Rebased(w, q, available, used), a, q, available, used);
  }

  // ----- runs ----------------------------------------------------------------

  /** Retained memory, its meaning, and whether a daemon is serving on it. */
  datatype Sys = Sys(w: World, a: Model, serving: bool)

  /** `Call(op, k)` is killed after `k` stores if the call issues more. */
  datatype Event = Call(op: Op, k: nat) | Reset(queue: nat, available: u16, used: u16) | Kill | Recover(k: nat)

  /** The published head counts as given back once its slot reads `EMPTY`. */
  function Observe(x: World, a: Model): Model {
    a.(owner := map id | id in a.owner ::
         if a.owner[id].Retiring? && id in x.m.cells && x.m.cells[id].state == EMPTY then Free else a.owner[id])
  }

  ghost function Called(cfg: Config, s: Sys, op: Op, k: nat): Sys {
    var stores := OpStores(cfg, s.w, op);
    if !s.serving || !OpOk(cfg, s.w.m, op) then s
    else if k < |stores| then Sys(Cut(s.w, stores, k), OpModel(cfg, s.w, s.a, op, k), false)
    else Sys(Run(s.w, stores), OpModel(cfg, s.w, s.a, op, |stores|), true)
  }

  ghost function Recovered(cfg: Config, s: Sys, k: nat): Sys {
    if s.serving || !Shaped(cfg, s.w.m) || |s.w.guest| != cfg.queues then s else
    match Reconcile(cfg, s.w.m, GuestView(s.w))
    case Err(_) => s
    case Ok(plan) =>
      var x := if k < |plan.stores| then Cut(s.w, plan.stores, k) else Run(s.w, plan.stores);
      Sys(x, Observe(x, s.a), k >= |plan.stores|)
  }

  ghost function Step(cfg: Config, s: Sys, e: Event): Sys {
    match e
    case Kill => s.(serving := false)
    case Call(op, k) => Called(cfg, s, op, k)
    case Recover(k) => Recovered(cfg, s, k)
    case Reset(q, available, used) =>
      if s.serving && ResetOk(cfg, s.w.m, q) && q < |s.w.guest| && q < |s.a.cursors|
      then Sys(Rebased(s.w, q, available, used), Rebase(s.a, q, available, used), true)
      else s
  }

  ghost function Exec(cfg: Config, s: Sys, events: seq<Event>): Sys {
    if events == [] then s else Step(cfg, Exec(cfg, s, events[..|events| - 1]), events[|events| - 1])
  }

  /** A mapping just created, under any guest. */
  function Created(cfg: Config, prefix: nat): Memory {
    Memory(cfg.identity, 0, 0, prefix, prefix, 0, seq(cfg.queues, _ => Queue(0, 0, 0, 0, 0, 0)),
           map id | id in Ids(cfg) :: Cell(0, 0, 0, 0, 0, 0, 0, 0, 0, 0, 0, 0, 0, 0, 0, 0, 0))
  }

  ghost predicate Safe(cfg: Config, s: Sys) {
    Recoverable(cfg, s.w, s.a) && (s.serving ==> Settled(cfg, s.w, s.a))
  }

  lemma {:induction false} CreatedSafe(cfg: Config, prefix: nat, guest: seq<u16>)
    requires cfg.Valid() && prefix <= U64_MAX && |guest| == cfg.queues
    ensures Safe(cfg, Sys(World(Created(cfg, prefix), guest), Fresh(cfg, prefix), true))
  {
    var w := World(Created(cfg, prefix), guest);
    var a := Fresh(cfg, prefix);
    FreshInv(cfg, prefix);
    FreshMatches(cfg, prefix, guest);
    assert Settled(cfg, w, a);
    SettledRecoverable(cfg, w, a);
  }

  lemma {:induction false} FreshMatches(cfg: Config, prefix: nat, guest: seq<u16>)
    requires cfg.Valid() && prefix <= U64_MAX && |guest| == cfg.queues
    ensures Matches(cfg, World(Created(cfg, prefix), guest), Fresh(cfg, prefix))
    ensures forall j | cfg.Has(j) :: !Between(cfg, World(Created(cfg, prefix), guest), Fresh(cfg, prefix), j)
  {
    forall id ensures id in Ids(cfg) <==> cfg.Has(id) {
      assert id == Id(id.queue, id.head);
    }
  }

  lemma {:induction false} ObserveIs(cfg: Config, x: World, a: Model)
    requires Recoverable(cfg, x, a) || Recoverable(cfg, x, Settle(a))
    ensures Recoverable(cfg, x, Observe(x, a))
    ensures Recoverable(cfg, x, a) ==> Observe(x, a) == a
    ensures Recoverable(cfg, x, Settle(a)) && !Recoverable(cfg, x, a) ==> Observe(x, a) == Settle(a)
  {
    hide *;
    if Recoverable(cfg, x, a) {
      StillRetiring(cfg, x, a);
    } else {
      AlreadyFree(cfg, x, a);
    }
  }

  lemma {:induction false} FreeIsEmpty(cfg: Config, x: World, a: Model, id: Id)
    requires Recoverable(cfg, x, a) && id in a.owner
    ensures id in x.m.cells && (x.m.cells[id].state == EMPTY <==> a.owner[id].Free?)
  {
    hide ModelInv, Only;
    assert CellRef(cfg, x, a, id);
  }

  lemma {:induction false} StillRetiring(cfg: Config, x: World, a: Model)
    requires Recoverable(cfg, x, a)
    ensures Observe(x, a) == a
  {
    hide Recoverable;
    forall id | id in a.owner ensures Observe(x, a).owner[id] == a.owner[id] {
      FreeIsEmpty(cfg, x, a, id);
    }
    assert Observe(x, a).owner == a.owner;
  }

  lemma {:induction false} AlreadyFree(cfg: Config, x: World, a: Model)
    requires Recoverable(cfg, x, Settle(a))
    ensures Observe(x, a) == Settle(a)
  {
    hide Recoverable;
    var b := Settle(a);
    forall id | id in a.owner ensures Observe(x, a).owner[id] == b.owner[id] {
      FreeIsEmpty(cfg, x, b, id);
    }
    assert Observe(x, a).owner == b.owner;
  }

  lemma {:induction false} CallSafe(cfg: Config, s: Sys, op: Op, k: nat)
    requires Safe(cfg, s)
    ensures Safe(cfg, Called(cfg, s, op, k))
  {
    hide Recoverable, Settled, OpOk, OpStores, OpModel, Cut, Run;
    if s.serving && OpOk(cfg, s.w.m, op) {
      var stores := OpStores(cfg, s.w, op);
      OpSurvives(cfg, s.w, s.a, op, if k < |stores| then k else |stores|);
      WholeRun(s.w, stores);
    }
  }

  lemma {:induction false} RecoverSafe(cfg: Config, s: Sys, k: nat)
    requires Safe(cfg, s)
    ensures Safe(cfg, Recovered(cfg, s, k))
  {
    hide Recoverable, Settled, Cut, Run, Reconcile, Observe, Settle, GuestView;
    if !s.serving {
      ReconcileSettles(cfg, s.w, s.a);
      var plan := Reconcile(cfg, s.w.m, GuestView(s.w));
      if plan.Ok? {
        var stores := plan.value.stores;
        var x := if k < |stores| then Cut(s.w, stores, k) else Run(s.w, stores);
        if k >= |stores| {
          SettledRecoverable(cfg, x, Settle(s.a));
          ObserveSettled(cfg, x, s.a);
        }
        ObserveIs(cfg, x, s.a);
      }
    }
  }

  lemma {:induction false} ObserveSettled(cfg: Config, x: World, a: Model)
    requires Settled(cfg, x, Settle(a))
    ensures Observe(x, a) == Settle(a)
  {
    SettledRecoverable(cfg, x, Settle(a));
    AlreadyFree(cfg, x, a);
  }

  lemma {:induction false} StepSafe(cfg: Config, s: Sys, e: Event)
    requires Safe(cfg, s)
    ensures Safe(cfg, Step(cfg, s, e))
  {
    hide Recoverable, Settled, Called, Recovered, ResetOk;
    match e
    case Kill =>
    case Call(op, k) => CallSafe(cfg, s, op, k);
    case Recover(k) => RecoverSafe(cfg, s, k);
    case Reset(q, available, used) =>
      var t := Step(cfg, s, e);
      if t != s {
        ResetSettles(cfg, s.w, s.a, q, available, used);
        SettledRecoverable(cfg, t.w, t.a);
      }
  }

  /** Whatever is called, killed, recovered and killed again, the carrier stays safe. */
  lemma {:induction false} RunSafe(cfg: Config, s: Sys, events: seq<Event>)
    requires Safe(cfg, s)
    ensures Safe(cfg, Exec(cfg, s, events))
    decreases |events|
  {
    hide Safe, Step;
    if events != [] {
      RunSafe(cfg, s, events[..|events| - 1]);
      StepSafe(cfg, Exec(cfg, s, events[..|events| - 1]), events[|events| - 1]);
    }
  }
}
