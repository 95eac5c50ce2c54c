/**
 * The books a run keeps: every descriptor taken is admitted at most once, every
 * admission is used at most once, and nothing is lost, through any crashes.
 */
module InflightLedger {
  import opened Units
  import opened InflightLayout
  import opened InflightModel
  import opened InflightRefinement
  import opened InflightOperations
  import opened InflightRecovery
  import opened InflightRepair
  import opened InflightReconciliation
  import opened InflightRuns

  /** The `i`-th admission still holds its head. */
  predicate Held(a: Model, i: nat)
    requires i < |a.history|
  {
    var e := a.history[i];
    e.request.Where() in a.owner && a.owner[e.request.Where()] == Admitted(e)
  }

  ghost predicate Finished(a: Model, i: nat)
    requires i < |a.history|
  {
    exists k | 0 <= k < |a.done| :: a.done[k].entry == a.history[i]
  }

  /** The `d`-th discovery still waits for admission. */
  predicate Waits(a: Model, d: nat)
    requires 1 <= d <= |a.found|
  {
    var r := a.found[d - 1];
    r.Where() in a.owner && a.owner[r.Where()] == Found(r, d)
  }

  ghost predicate Taken(a: Model, d: nat)
    requires 1 <= d <= |a.found|
  {
    exists i | 0 <= i < |a.history| :: a.history[i].discovery == d && a.history[i].request == a.found[d - 1]
  }

  /** Admissions and used entries. */
  ghost predicate UsedLedger(a: Model) {
    && (forall i, j | 0 <= i < j < |a.done| :: a.done[i].entry.serial != a.done[j].entry.serial)
    && (forall k, id | 0 <= k < |a.done| && id in a.owner && a.owner[id].Admitted? ::
          a.done[k].entry.serial != a.owner[id].entry.serial)
    && (forall i | 0 <= i < |a.history| :: Held(a, i) || Finished(a, i))
  }

  /** Descriptors taken and admissions. */
  ghost predicate TakenLedger(a: Model) {
    && (forall i | 0 <= i < |a.history| :: 1 <= a.history[i].discovery <= |a.found|)
    && (forall i, j | 0 <= i < j < |a.history| :: a.history[i].discovery != a.history[j].discovery)
    && (forall i, id | 0 <= i < |a.history| && id in a.owner && a.owner[id].Found? ::
          a.history[i].discovery != a.owner[id].discovery)
    && (forall d | 1 <= d <= |a.found| :: Waits(a, d) || Taken(a, d))
  }

  ghost predicate Ledger(a: Model) { UsedLedger(a) && TakenLedger(a) }

  lemma {:induction false} FindUsed(cfg: Config, a: Model, r: Request)
    requires UsedLedger(a) && CanFind(cfg, a, r)
    ensures UsedLedger(Find(a, r))
  {
    var b := Find(a, r);
    forall i | 0 <= i < |b.history| ensures Held(b, i) || Finished(b, i) {
      if Finished(a, i) {
        var k :| 0 <= k < |a.done| && a.done[k].entry == a.history[i];
        assert b.done[k].entry == b.history[i];
      }
    }
  }

  lemma {:induction false} FindTaken(cfg: Config, a: Model, r: Request)
    requires TakenLedger(a) && CanFind(cfg, a, r)
    ensures TakenLedger(Find(a, r))
  {
    var b := Find(a, r);
    forall d | 1 <= d <= |b.found| ensures Waits(b, d) || Taken(b, d) {
      if d <= |a.found| && Taken(a, d) {
        var i :| 0 <= i < |a.history| && a.history[i].discovery == d && a.history[i].request == a.found[d - 1];
        assert b.history[i].discovery == d;
      }
    }
  }

  lemma {:induction false} AdmitUsed(cfg: Config, a: Model, r: Request, rejected: bool)
    requires ModelInv(cfg, a) && UsedLedger(a) && CanAdmit(cfg, a, r, rejected)
    ensures UsedLedger(Admit(cfg, a, r, rejected))
  {
    var b := Admit(cfg, a, r, rejected);
    forall i | 0 <= i < |b.history| ensures Held(b, i) || Finished(b, i) {
      if i < |a.history| && Finished(a, i) {
        var k :| 0 <= k < |a.done| && a.done[k].entry == a.history[i];
        assert b.done[k].entry == b.history[i];
      }
    }
    forall k | 0 <= k < |b.done| ensures b.done[k].entry.serial <= |a.history| {
      assert DoneOk(a, a.done[k]);
    }
  }

  lemma {:induction false} AdmitTaken(cfg: Config, a: Model, r: Request, rejected: bool)
    requires ModelInv(cfg, a) && TakenLedger(a) && CanAdmit(cfg, a, r, rejected)
    ensures TakenLedger(Admit(cfg, a, r, rejected))
  {
    hide Numbered, Balanced, DoneOk;
    var b := Admit(cfg, a, r, rejected);
    assert OwnerOk(cfg, a, r.Where(), a.owner[r.Where()]);
    var d0 := a.owner[r.Where()].discovery;
    forall d | 1 <= d <= |b.found| ensures Waits(b, d) || Taken(b, d) {
      if Taken(a, d) {
        var i :| 0 <= i < |a.history| && a.history[i].discovery == d && a.history[i].request == a.found[d - 1];
        assert b.history[i].discovery == d;
      } else if d == d0 {
        assert b.history[|a.history|].discovery == d && b.history[|a.history|].request == b.found[d - 1];
      }
    }
    forall i, id | 0 <= i < |b.history| && id in b.owner && b.owner[id].Found?
      ensures b.history[i].discovery != b.owner[id].discovery
    {
      assert OwnerOk(cfg, a, id, a.owner[id]);
    }
  }

  lemma {:induction false} UseUsed(cfg: Config, a: Model, e: Entry, used: u16, error: bool)
    requires ModelInv(cfg, a) && UsedLedger(a) && CanComplete(a, e, used, error)
    ensures UsedLedger(Use(a, e, !error))
  {
    var b := Use(a, e, !error);
    assert OwnerOk(cfg, a, e.request.Where(), Admitted(e));
    forall i | 0 <= i < |b.history| ensures Held(b, i) || Finished(b, i) {
      if Finished(a, i) {
        var k :| 0 <= k < |a.done| && a.done[k].entry == a.history[i];
        assert b.done[k].entry == b.history[i];
      } else if a.history[i] == e {
        assert b.done[|a.done|].entry == b.history[i];
      }
    }
    forall id | id in b.owner && b.owner[id].Admitted? ensures b.owner[id].entry.serial != e.serial {
      assert OwnerOk(cfg, a, id, a.owner[id]);
    }
  }

  lemma {:induction false} UseTaken(a: Model, e: Entry, success: bool)
    requires TakenLedger(a) && e.request.queue < |a.cursors|
    requires e.request.Where() in a.owner && a.owner[e.request.Where()] == Admitted(e)
    ensures TakenLedger(Use(a, e, success))
  {
    var b := Use(a, e, success);
    forall d | 1 <= d <= |b.found| ensures Waits(b, d) || Taken(b, d) {
      if Taken(a, d) {
        SameTaken(a, b, d);
      }
    }
  }

  lemma {:induction false} SameTaken(a: Model, b: Model, d: nat)
    requires a.history == b.history && a.found == b.found && 1 <= d <= |a.found| && Taken(a, d)
    ensures Taken(b, d)
  {
    var i :| 0 <= i < |a.history| && a.history[i].discovery == d && a.history[i].request == a.found[d - 1];
    assert b.history[i].discovery == d;
  }

  /** Only a published head may have been given back. */
  ghost predicate SameBooks(a: Model, b: Model) {
    && b.history == a.history && b.found == a.found && b.done == a.done
    && b.owner.Keys == a.owner.Keys
    && (forall id | id in a.owner :: b.owner[id] == a.owner[id] || (a.owner[id].Retiring? && b.owner[id].Free?))
  }

  lemma {:induction false} LedgerFrame(a: Model, b: Model)
    requires Ledger(a) && SameBooks(a, b)
    ensures Ledger(b)
  {
    forall i | 0 <= i < |b.history| ensures Held(b, i) || Finished(b, i) {
      if Finished(a, i) {
        var k :| 0 <= k < |a.done| && a.done[k].entry == a.history[i];
        assert b.done[k].entry == b.history[i];
      } else {
        assert b.history[i].request.Where() in b.owner.Keys;
      }
    }
    forall d | 1 <= d <= |b.found| ensures Waits(b, d) || Taken(b, d) {
      if Taken(a, d) {
        SameTaken(a, b, d);
      } else {
        assert b.found[d - 1].Where() in b.owner.Keys;
      }
    }
    assert forall id | id in b.owner :: id in a.owner.Keys;
  }

  // ----- over runs -----------------------------------------------------------

  /** What no step takes back. */
  ghost predicate Grows(a: Model, b: Model) {
    && a.start == b.start && a.published <= b.published && (a.failed ==> b.failed)
    && a.found <= b.found && a.history <= b.history && a.done <= b.done
  }

  ghost predicate Books(a: Model, b: Model) { Ledger(b) && Grows(a, b) }

  lemma {:induction false} SameBooksGrow(a: Model, b: Model)
    requires Ledger(a) && SameBooks(a, b) && a.start == b.start && a.published <= b.published && (a.failed ==> b.failed)
    ensures Books(a, b)
  {
    hide Ledger;
    LedgerFrame(a, b);
  }

  lemma {:induction false} DiscoverBooks(cfg: Config, a: Model, r: Request, k: nat)
    requires Ledger(a) && CanFind(cfg, a, r)
    ensures Books(a, Discovered(a, r, k))
  {
    hide UsedLedger, TakenLedger;
    FindUsed(cfg, a, r);
    FindTaken(cfg, a, r);
  }

  lemma {:induction false} AdmitBooks(cfg: Config, a: Model, r: Request, rejected: bool, k: nat)
    requires ModelInv(cfg, a) && Ledger(a) && CanAdmit(cfg, a, r, rejected)
    ensures Books(a, Entered(cfg, a, r, rejected, k))
  {
    hide ModelInv, UsedLedger, TakenLedger;
    AdmitUsed(cfg, a, r, rejected);
    AdmitTaken(cfg, a, r, rejected);
  }

  lemma {:induction false} CompleteBooks(cfg: Config, a: Model, e: Entry, used: u16, error: bool, k: nat)
    requires ModelInv(cfg, a) && Ledger(a) && CanComplete(a, e, used, error)
    ensures Books(a, Completing(a, e, !error, k))
  {
    hide ModelInv, UsedLedger, TakenLedger;
    UseUsed(cfg, a, e, used, error);
    UseTaken(a, e, !error);
    var b := Use(a, e, !error);
    var c := Release(b, e.request.Where());
    assert c.owner.Keys == b.owner.Keys;
    LedgerFrame(b, c);
  }

  lemma {:induction false} BooksChain(a: Model, b: Model, c: Model)
    requires Books(a, b) && Books(b, c)
    ensures Books(a, c)
  {
    hide Ledger;
  }

  lemma {:induction false} EnterBooks(cfg: Config, w: World, a: Model, r: Request, rejected: bool, k: nat)
    requires Settled(cfg, w, a) && Ledger(a) && AdmitOk(cfg, w.m, r, rejected)
    ensures Books(a, OpModel(cfg, w, a, Enter(r, rejected), k))
  {
    hide Settled, ModelInv, AdmitOk, Books, Ledger, Entered, Discovered, Entering;
    SettledInv(cfg, w, a);
    EnteringIs(cfg, w, a, r, rejected);
    if a.owner[r.Where()].Found? {
      AdmitBooks(cfg, a, r, rejected, k);
    } else {
      DiscoverBooks(cfg, a, r, if k <= 12 then k else 12);
      if k > 12 {
        FindInv(cfg, a, r);
        DiscoveredIs(a, r);
        BooksLedger(a, Find(a, r));
        AdmitBooks(cfg, Find(a, r), r, rejected, k - 12);
        BooksChain(a, Find(a, r), Entered(cfg, Find(a, r), r, rejected, k - 12));
      }
    }
  }

  lemma {:induction false} SettledInv(cfg: Config, w: World, a: Model)
    requires Settled(cfg, w, a)
    ensures ModelInv(cfg, a)
  {
  }

  lemma {:induction false} DiscoveredIs(a: Model, r: Request)
    requires r.queue < |a.cursors|
    ensures Discovered(a, r, 12) == Find(a, r)
  {
  }

  lemma {:induction false} BooksLedger(a: Model, b: Model)
    requires Books(a, b)
    ensures Ledger(b)
  {
  }

  lemma {:induction false} OpBooks(cfg: Config, w: World, a: Model, op: Op, k: nat)
    requires Settled(cfg, w, a) && Ledger(a) && OpOk(cfg, w.m, op)
    ensures Books(a, OpModel(cfg, w, a, op, k))
  {
    hide Settled, ModelInv, Books, Ledger, InitializeOk, DiscoverOk, AdmitOk, CompleteOk, CanComplete, CanFind,
      Discovered, Completing;
    SettledInv(cfg, w, a);
    SameBooksGrow(a, a);
    match op
    case Initialize(q, available) => SameBooksGrow(a, OpModel(cfg, w, a, op, k));
    case Discover(r) =>
      DiscoverGuard(cfg, w, a, r);
      DiscoverBooks(cfg, a, r, k);
    case Enter(r, rejected) => EnterBooks(cfg, w, a, r, rejected, k);
    case Advance(prefix) =>
      if k > 0 {
        AdvanceSurvives(cfg, w, a, prefix, 0);
        SameBooksGrow(a, OpModel(cfg, w, a, op, k));
      }
    case Complete(e, used, delivered) =>
      CompleteGuard(cfg, w, a, e, used, false);
      if delivered { CompleteBooks(cfg, a, e, used, false, k); } else { SameBooksGrow(a, OpModel(cfg, w, a, op, k)); }
    case Retire(e, used, delivered) =>
      CompleteGuard(cfg, w, a, e, used, true);
      if delivered { CompleteBooks(cfg, a, e, used, true, k); }
    case Poison => SameBooksGrow(a, OpModel(cfg, w, a, op, k));
  }

  lemma {:induction false} StepBooks(cfg: Config, s: Sys, e: Event)
    requires Safe(cfg, s) && Ledger(s.a)
    ensures Books(s.a, Step(cfg, s, e).a)
  {
    hide Recoverable, Settled, Ledger, Books, OpModel, OpStores, OpOk, ResetOk, Reconcile, Cut, Run;
    SameBooksGrow(s.a, s.a);
    match e
    case Kill =>
    case Call(op, k) =>
      if s.serving && OpOk(cfg, s.w.m, op) {
        var stores := OpStores(cfg, s.w, op);
        OpBooks(cfg, s.w, s.a, op, if k < |stores| then k else |stores|);
      }
    case Recover(k) =>
      ObserveBooks(Step(cfg, s, e).w, s.a);
    case Reset(q, available, used) =>
      SameBooksGrow(s.a, Step(cfg, s, e).a);
  }

  lemma {:induction false} ObserveBooks(x: World, a: Model)
    requires Ledger(a)
    ensures Books(a, Observe(x, a))
  {
    hide Ledger, Books;
    assert Observe(x, a).owner.Keys == a.owner.Keys;
    SameBooksGrow(a, Observe(x, a));
  }

  /** The books balance after every run, and no run rewrites an earlier one's. */
  lemma {:induction false} RunBooks(cfg: Config, s: Sys, events: seq<Event>, n: nat)
    requires Safe(cfg, s) && Ledger(s.a) && n <= |events|
    ensures Ledger(Exec(cfg, s, events).a)
    ensures Grows(Exec(cfg, s, events[..n]).a, Exec(cfg, s, events).a)
    decreases |events|
  {
    hide Safe, Ledger, Step;
    if n == |events| {
      assert events[..n] == events;
    }
    if events != [] {
      var before := events[..|events| - 1];
      RunSafe(cfg, s, before);
      RunBooks(cfg, s, before, if n == |events| then 0 else n);
      StepBooks(cfg, Exec(cfg, s, before), events[|events| - 1]);
      if n < |events| {
        assert before[..n] == events[..n];
      }
    }
  }

  lemma {:induction false} FreshLedger(cfg: Config, prefix: nat)
    ensures Ledger(Fresh(cfg, prefix))
  {
  }

  // ----- what that says of a run from creation -------------------------------

  ghost function Outcome(cfg: Config, prefix: nat, guest: seq<u16>, events: seq<Event>): Sys {
    Exec(cfg, Sys(World(Created(cfg, prefix), guest), Fresh(cfg, prefix), true), events)
  }

  /**
   * From creation, under any calls, crashes, recoveries and resets: the mapping
   * is recoverable, an admission has at most one used entry, and one without
   * still holds its head.
   */
  lemma {:induction false} UsedOnce(cfg: Config, prefix: nat, guest: seq<u16>, events: seq<Event>, i: nat)
    requires cfg.Valid() && prefix <= U64_MAX && |guest| == cfg.queues
    requires i < |Outcome(cfg, prefix, guest, events).a.history|
    ensures var s := Outcome(cfg, prefix, guest, events);
      && Safe(cfg, s)
      && (Held(s.a, i) <==> !Finished(s.a, i))
      && (forall j, k | 0 <= j < k < |s.a.done| :: s.a.done[j].entry != s.a.done[k].entry)
  {
    hide Safe, Exec, ModelInv, Matches;
    CreatedSafe(cfg, prefix, guest);
    FreshLedger(cfg, prefix);
    var s0 := Sys(World(Created(cfg, prefix), guest), Fresh(cfg, prefix), true);
    RunSafe(cfg, s0, events);
    RunBooks(cfg, s0, events, 0);
  }

  /** Every descriptor taken either still waits or was admitted, once. */
  lemma {:induction false} TakenOnce(cfg: Config, prefix: nat, guest: seq<u16>, events: seq<Event>, d: nat)
    requires cfg.Valid() && prefix <= U64_MAX && |guest| == cfg.queues
    requires 1 <= d <= |Outcome(cfg, prefix, guest, events).a.found|
    ensures var a := Outcome(cfg, prefix, guest, events).a;
      && (Waits(a, d) <==> !Taken(a, d))
      && (forall i, j | 0 <= i < j < |a.history| :: a.history[i].discovery != a.history[j].discovery)
  {
    hide Safe, Exec, ModelInv, Matches;
    CreatedSafe(cfg, prefix, guest);
    FreshLedger(cfg, prefix);
    var s0 := Sys(World(Created(cfg, prefix), guest), Fresh(cfg, prefix), true);
    RunBooks(cfg, s0, events, 0);
  }

  lemma {:induction false} QueueFacts(cfg: Config, w: World, a: Model, q: nat)
    requires Settled(cfg, w, a) && q < cfg.queues && q < |a.cursors|
    ensures |w.m.queues| == cfg.queues && w.m.queues[q].available < 0x1_0000 && Balanced(a, q)
    ensures (forall id :: id in w.m.cells <==> cfg.Has(id)) && (forall id :: id in a.owner <==> cfg.Has(id))
  {
    assert QueueRef(cfg, w, a, q);
    assert Balanced(a, q);
    hide Balanced;
  }

  /**
   * Between calls, the slots in use on a live queue are what the cursors say,
   * modulo 2^16, from the distance at which the queue was last set up.
   */
  lemma {:induction false} CursorConservation(cfg: Config, w: World, a: Model, q: nat)
    requires Settled(cfg, w, a) && q < cfg.queues && q < |a.cursors| && a.cursors[q].live
    ensures |w.m.queues| == cfg.queues && w.m.queues[q].available < 0x1_0000
    ensures Sub16(w.m.queues[q].available, w.m.queues[q].used) ==
            Low16(a.cursors[q].offset + |set id | id in w.m.cells && id.queue == q && w.m.cells[id].state != EMPTY|)
  {
    hide Settled, ModelInv, Low16, Sub16;
    SettledExact(cfg, w, a);
    QueueFacts(cfg, w, a, q);
    var busy := set id | id in w.m.cells && id.queue == q && w.m.cells[id].state != EMPTY;
    assert busy == Outstanding(a, q);
  }

  // ----- the same for every run from creation --------------------------------

  lemma {:induction false} OutcomeSafe(cfg: Config, prefix: nat, guest: seq<u16>, events: seq<Event>)
    requires cfg.Valid() && prefix <= U64_MAX && |guest| == cfg.queues
    ensures var s := Outcome(cfg, prefix, guest, events);
      Recoverable(cfg, s.w, s.a) && ModelInv(cfg, s.a) && Sized(cfg, s.w, s.a) && (s.serving ==> Settled(cfg, s.w, s.a))
  {
    hide Exec, ModelInv, Matches, Settled;
    CreatedSafe(cfg, prefix, guest);
    RunSafe(cfg, Sys(World(Created(cfg, prefix), guest), Fresh(cfg, prefix), true), events);
    var s := Outcome(cfg, prefix, guest, events);
    RecoverableParts(cfg, s.w, s.a);
  }

  /** Serials count admissions, and accepted mutations are numbered contiguously in that order. */
  lemma {:induction false} RunNumbers(cfg: Config, prefix: nat, guest: seq<u16>, events: seq<Event>, i: nat)
    requires cfg.Valid() && prefix <= U64_MAX && |guest| == cfg.queues
    requires i < |Outcome(cfg, prefix, guest, events).a.history|
    ensures var a := Outcome(cfg, prefix, guest, events).a; var e := a.history[i];
      && e.serial == i + 1
      && (e.mutation != 0 <==>
            && !e.rejected && e.request.length != 0
            && (e.request.kind.Write? || e.request.kind.Zero? || e.request.kind.Discard? || e.request.kind.ZeroUnmap?))
      && (e.mutation != 0 ==> e.mutation == a.start + Issued(a.history[..i + 1]))
      && e.boundary == a.start + Issued(a.history[..i])
  {
    hide Outcome, ModelInv, Issued;
    OutcomeSafe(cfg, prefix, guest, events);
    MutationsContiguous(cfg, Outcome(cfg, prefix, guest, events).a, i);
  }

  /** A successful used entry was within the published prefix when the guest saw it. */
  lemma {:induction false} RunPrefix(cfg: Config, prefix: nat, guest: seq<u16>, events: seq<Event>, k: nat)
    requires cfg.Valid() && prefix <= U64_MAX && |guest| == cfg.queues
    requires var a := Outcome(cfg, prefix, guest, events).a; k < |a.done| && a.done[k].success
    ensures var a := Outcome(cfg, prefix, guest, events).a; var d := a.done[k];
      && d.prefix <= a.published <= a.mutation
      && 1 <= d.entry.serial <= |a.history| && a.history[d.entry.serial - 1] == d.entry
      && (Alters(d.entry) ==> 1 <= d.entry.mutation <= d.prefix)
      && (!d.entry.rejected && (d.entry.request.kind.Read? || d.entry.request.kind.Flush?) ==>
            d.entry.boundary <= d.prefix &&
            forall i | 0 <= i < d.entry.serial - 1 && Alters(a.history[i]) :: 1 <= a.history[i].mutation <= d.prefix)
  {
    hide Outcome, ModelInv;
    OutcomeSafe(cfg, prefix, guest, events);
    CompletionsWithinPrefix(cfg, Outcome(cfg, prefix, guest, events).a, k);
  }

  // ----- cursors, from the last set-up of a queue ----------------------------

  /** The cursors `e` sets queue `q` up with, if it does. */
  ghost function SetUp(cfg: Config, s: Sys, e: Event, q: nat): Option<(u16, u16)> {
    match e
    case Call(Initialize(p, available), k) =>
      if p == q && s.serving && k >= 4 && InitializeOk(cfg, s.w.m, q) && q < |s.w.guest|
      then Some((available, s.w.guest[q])) else None
    case Reset(p, available, used) =>
      if p == q && s.serving && ResetOk(cfg, s.w.m, q) then Some((available, used)) else None
    case _ => None
  }

  /** The available and used cursors at the last Initialize or Reset of queue `q` in a run. */
  ghost function LastSetUp(cfg: Config, s: Sys, events: seq<Event>, q: nat): Option<(u16, u16)> {
    if events == [] then None else
    var before := events[..|events| - 1];
    var now := SetUp(cfg, Exec(cfg, s, before), events[|events| - 1], q);
    if now.Some? then now else LastSetUp(cfg, s, before, q)
  }

  /** What a queue's cursor remembers of its set-up. */
  ghost predicate Remembers(a: Model, q: nat, last: Option<(u16, u16)>) {
    && q < |a.cursors|
    && (a.cursors[q].live <==> last.Some?)
    && (last.Some? ==> a.cursors[q].offset == Sub16(last.value.0, last.value.1))
  }

  ghost predicate SameSetUp(a: Model, b: Model, q: nat) {
    && |a.cursors| == |b.cursors|
    && (q < |a.cursors| ==> a.cursors[q].live == b.cursors[q].live && a.cursors[q].offset == b.cursors[q].offset)
  }

  lemma {:induction false} OpSetUp(cfg: Config, w: World, a: Model, op: Op, k: nat, q: nat)
    requires !op.Initialize? || op.queue != q || k < 4
    ensures SameSetUp(a, OpModel(cfg, w, a, op, k), q)
  {
  }

  lemma {:induction false} StepSetUp(cfg: Config, s: Sys, e: Event, q: nat, last: Option<(u16, u16)>)
    requires Safe(cfg, s) && q < cfg.queues && Remembers(s.a, q, last)
    ensures var now := SetUp(cfg, s, e, q); Remembers(Step(cfg, s, e).a, q, if now.Some? then now else last)
  {
    GuestSized(cfg, s);
    hide Safe, OpModel, OpStores, InitializeOk, OpOk, ResetOk, Reconcile, Cut, Run, Sub16;
    match e
    case Kill =>
    case Recover(k) =>
    case Reset(p, available, used) =>
    case Call(op, k) =>
      OpOkIs(cfg, s.w.m, op);
      var stores := OpStores(cfg, s.w, op);
      if op.Initialize? && op.queue == q {
        InitializeIs(cfg, s.w, s.a, q, op.available);
      }
      var n := if k < |stores| then k else |stores|;
      if !op.Initialize? || op.queue != q || n < 4 {
        OpSetUp(cfg, s.w, s.a, op, n, q);
      }
  }

  lemma {:induction false} GuestSized(cfg: Config, s: Sys)
    requires Safe(cfg, s)
    ensures |s.w.guest| == cfg.queues == |s.a.cursors|
  {
  }

  lemma {:induction false} OpOkIs(cfg: Config, m: Memory, op: Op)
    ensures op.Initialize? ==> OpOk(cfg, m, op) == InitializeOk(cfg, m, op.queue)
  {
  }

  lemma {:induction false} InitializeIs(cfg: Config, w: World, a: Model, q: nat, available: u16)
    requires q < |a.cursors| && q < |w.guest|
    ensures |OpStores(cfg, w, Initialize(q, available))| == 4
    ensures OpModel(cfg, w, a, Initialize(q, available), 4) == Rebase(a, q, available, w.guest[q])
  {
  }

  lemma {:induction false} RunSetUp(cfg: Config, s: Sys, events: seq<Event>, q: nat)
    requires Safe(cfg, s) && q < cfg.queues && Remembers(s.a, q, None)
    ensures Remembers(Exec(cfg, s, events).a, q, LastSetUp(cfg, s, events, q))
    decreases |events|
  {
    hide Safe, Remembers, Step, SetUp;
    if events != [] {
      var before := events[..|events| - 1];
      RunSafe(cfg, s, before);
      RunSetUp(cfg, s, before, q);
      StepSetUp(cfg, Exec(cfg, s, before), events[|events| - 1], q, LastSetUp(cfg, s, before, q));
    }
  }

  ghost function OutcomeSetUp(cfg: Config, prefix: nat, guest: seq<u16>, events: seq<Event>, q: nat)
    : Option<(u16, u16)>
  {
    LastSetUp(cfg, Sys(World(Created(cfg, prefix), guest), Fresh(cfg, prefix), true), events, q)
  }

  lemma {:induction false} OutcomeRemembers(cfg: Config, prefix: nat, guest: seq<u16>, events: seq<Event>, q: nat)
    requires cfg.Valid() && prefix <= U64_MAX && |guest| == cfg.queues && q < cfg.queues
    ensures Remembers(Outcome(cfg, prefix, guest, events).a, q, OutcomeSetUp(cfg, prefix, guest, events, q))
  {
    hide Safe, Exec, LastSetUp;
    CreatedSafe(cfg, prefix, guest);
    RunSetUp(cfg, Sys(World(Created(cfg, prefix), guest), Fresh(cfg, prefix), true), events, q);
  }

  /**
   * Between calls of any run, the slots in use on a queue are how far its cursors
   * have drifted apart, modulo 2^16, since its last set-up in that run.
   */
  lemma {:induction false} RunCursors(cfg: Config, prefix: nat, guest: seq<u16>, events: seq<Event>, q: nat)
    requires cfg.Valid() && prefix <= U64_MAX && |guest| == cfg.queues && q < cfg.queues
    requires Outcome(cfg, prefix, guest, events).serving && OutcomeSetUp(cfg, prefix, guest, events, q).Some?
    ensures var m := Outcome(cfg, prefix, guest, events).w.m;
      var (available, used) := OutcomeSetUp(cfg, prefix, guest, events, q).value;
      && |m.queues| == cfg.queues && m.queues[q].available < 0x1_0000
      && Sub16(m.queues[q].available, m.queues[q].used) ==
         Low16(Sub16(available, used) + |set id | id in m.cells && id.queue == q && m.cells[id].state != EMPTY|)
  {
    hide Outcome, OutcomeSetUp, Settled, Sub16, Low16;
    OutcomeSafe(cfg, prefix, guest, events);
    OutcomeRemembers(cfg, prefix, guest, events, q);
    var s := Outcome(cfg, prefix, guest, events);
    CursorConservation(cfg, s.w, s.a, q);
  }

  // ----- every cut of every run ----------------------------------------------

  lemma {:induction false} OutcomeLedger(cfg: Config, prefix: nat, guest: seq<u16>, events: seq<Event>)
    requires cfg.Valid() && prefix <= U64_MAX && |guest| == cfg.queues
    ensures Ledger(Outcome(cfg, prefix, guest, events).a)
  {
    hide Safe, Exec, Ledger;
    CreatedSafe(cfg, prefix, guest);
    FreshLedger(cfg, prefix);
    RunBooks(cfg, Sys(World(Created(cfg, prefix), guest), Fresh(cfg, prefix), true), events, 0);
  }

  /** The used entry of the request an ACTIVE slot holds is out. */
  ghost predicate UsedAt(a: Model, c: Cell) {
    1 <= c.serial <= |a.history| && Finished(a, c.serial - 1)
  }

  /** A head that holds an admission is published exactly when that admission has a used entry. */
  lemma {:induction false} RetiringIsUsed(cfg: Config, a: Model, id: Id)
    requires ModelInv(cfg, a) && Ledger(a) && id in a.owner && HasEntry(a.owner[id])
    ensures var e := a.owner[id].entry;
      && e.request.Where() == id && 1 <= e.serial <= |a.history| && a.history[e.serial - 1] == e
      && (a.owner[id].Retiring? <==> Finished(a, e.serial - 1))
  {
    hide Numbered;
    assert OwnerOk(cfg, a, id, a.owner[id]);
    var i := a.owner[id].entry.serial - 1;
    assert Held(a, i) || Finished(a, i);
  }

  lemma {:induction false} SlotHolds(cfg: Config, w: World, a: Model, id: Id)
    requires Recoverable(cfg, w, a) && cfg.Has(id)
    ensures Sized(cfg, w, a)
    ensures w.m.cells[id].state == DISCOVERED ==>
      a.owner[id].Found? && w.m.cells[id].discovery == a.owner[id].discovery
    ensures w.m.cells[id].state == PREPARED || w.m.cells[id].state == ACTIVE ==>
      && HasEntry(a.owner[id])
      && w.m.cells[id].serial == a.owner[id].entry.serial && w.m.cells[id].mutation == a.owner[id].entry.mutation
  {
    hide ModelInv, Only;
    assert CellRef(cfg, w, a, id);
  }

  /** The head `id` runs ahead of no header counter, or is in progress and ahead by one. */
  ghost predicate Counted(cfg: Config, w: World, a: Model, id: Id)
    requires Sized(cfg, w, a) && cfg.Has(id)
  {
    var c := w.m.cells[id];
    && (c.state == DISCOVERED && c.discovery > w.m.discovery ==>
          Between(cfg, w, a, id) && c.discovery == w.m.discovery + 1)
    && ((c.state == PREPARED || c.state == ACTIVE) && c.serial > w.m.serial ==>
          Between(cfg, w, a, id) && c.serial == w.m.serial + 1)
    && ((c.state == PREPARED || c.state == ACTIVE) && c.mutation > w.m.mutation ==>
          Between(cfg, w, a, id) && c.mutation == w.m.mutation + 1)
  }

  /**
   * At every crash cut of any run: one head at most is in progress, only that
   * head exceeds a header counter and then by one, and the mapping and the
   * guest's index say of every ACTIVE slot whether its used entry is out.
   */
  lemma {:induction false} RunDecided(cfg: Config, prefix: nat, guest: seq<u16>, events: seq<Event>, i: Id, j: Id)
    requires cfg.Valid() && prefix <= U64_MAX && |guest| == cfg.queues && cfg.Has(i) && cfg.Has(j)
    ensures var s := Outcome(cfg, prefix, guest, events); var m := s.w.m;
      && Sized(cfg, s.w, s.a)
      && (Between(cfg, s.w, s.a, i) && Between(cfg, s.w, s.a, j) ==> i == j)
      && Counted(cfg, s.w, s.a, i)
      && (m.cells[i].state == ACTIVE ==>
            (UsedAt(s.a, m.cells[i]) <==>
             (m.cells[i].inflight == 0 ||
              (s.w.guest[i.queue] == Next16(m.queues[i.queue].used) && m.queues[i.queue].lastHead == i.head))))
  {
    hide Outcome, ModelInv, Matches, Settled, Recoverable, Ledger, Between, Finished, Next16;
    OutcomeSafe(cfg, prefix, guest, events);
    OutcomeLedger(cfg, prefix, guest, events);
    var s := Outcome(cfg, prefix, guest, events);
    OneHeadInProgress(cfg, s.w, s.a, i, j);
    SlotHolds(cfg, s.w, s.a, i);
    if s.w.m.cells[i].state == ACTIVE {
      PublicationDecided(cfg, s.w, s.a, i);
      RetiringIsUsed(cfg, s.a, i);
    }
  }

  /** And a replacement daemon is told exactly what the guest still waits for. */
  lemma {:induction false} RunReplays(cfg: Config, prefix: nat, guest: seq<u16>, events: seq<Event>)
    requires cfg.Valid() && prefix <= U64_MAX && |guest| == cfg.queues
    ensures var s := Outcome(cfg, prefix, guest, events);
      && Sized(cfg, s.w, s.a)
      && var plan := InflightRecovery.Reconcile(cfg, s.w.m, GuestView(s.w));
         && (plan.Ok? <==> !s.a.failed)
         && (plan.Ok? ==> Settled(cfg, Run(s.w, plan.value.stores), Settle(s.a)) && Exact(cfg, s.a, plan.value.replay))
  {
    hide Outcome, ModelInv, Matches, Settled, Recoverable, Reconcile, Exact, Run, Settle, GuestView;
    OutcomeSafe(cfg, prefix, guest, events);
    var s := Outcome(cfg, prefix, guest, events);
    ReconcileSettles(cfg, s.w, s.a);
    if !s.a.failed {
      ReplayExact(cfg, s.w, s.a);
    }
  }
}
