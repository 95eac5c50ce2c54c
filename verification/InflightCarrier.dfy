/**
 * The carrier as the daemon runs it: one method per call, loading and storing
 * the mapping field by field. Each method is shown to issue exactly the store
 * list whose every cut is covered, and to move the model as that list does.
 */
module InflightCarrier {
  import opened Units
  import opened Sorting
  import opened InflightLayout
  import opened InflightModel
  import opened InflightRefinement
  import opened InflightOperations
  import opened InflightRuns
  import opened InflightReset
  import opened InflightRecovery
  import opened InflightRepair
  import opened InflightReconciliation
  import opened InflightScan
  import InflightProgress

  /** A call did all of its stores and no others, or was refused and did none. */
  ghost predicate Did(cfg: Config, w0: World, a0: Model, l0: seq<Store>, op: Op, w: World, a: Model, log: seq<Store>) {
    var s := OpStores(cfg, w0, op);
    if OpOk(cfg, w0.m, op)
    then w == Run(w0, s) && log == l0 + s && a == OpModel(cfg, w0, a0, op, |s|)
    else w == w0 && log == l0 && a == a0
  }

  class Carrier {
    const cfg: Config
    var w: World
    ghost var a: Model
    /** Every store made, in order. */
    ghost var log: seq<Store>

    ghost predicate Valid()
      reads this
    {
      Settled(cfg, w, a)
    }

    constructor (cfg: Config, prefix: nat, guest: seq<u16>)
      requires cfg.Valid() && prefix <= U64_MAX && |guest| == cfg.queues
      ensures Valid() && this.cfg == cfg && log == []
      ensures w == World(Created(cfg, prefix), guest) && a == Fresh(cfg, prefix)
    {
      this.cfg := cfg;
      w := World(Created(cfg, prefix), guest);
      a := Fresh(cfg, prefix);
      log := [];
      new;
      CreatedSafe(cfg, prefix, guest);
    }

    /** One store, the `k`-th of the list the call is to issue. */
    method Issue(s: Store, ghost w0: World, ghost l0: seq<Store>, ghost stores: seq<Store>, ghost k: nat)
      requires k < |stores| && stores[k] == s
      requires w == Cut(w0, stores, k) && log == l0 + stores[..k]
      modifies this`w, this`log
      ensures w == Cut(w0, stores, k + 1) && log == l0 + stores[..k + 1]
    {
      CutStep(w0, stores, k);
      hide Cut;
      w := Apply(w, s);
      log := log + [s];
      assert stores[..k + 1] == stores[..k] + [s];
    }

    /** The ghost model follows a call whose stores have all been made. */
    ghost method Follow(op: Op, w0: World, l0: seq<Store>)
      requires Settled(cfg, w0, a) && OpOk(cfg, w0.m, op)
      requires w == Run(w0, OpStores(cfg, w0, op)) && log == l0 + OpStores(cfg, w0, op)
      modifies this`a
      ensures Valid() && Did(cfg, w0, old(a), l0, op, w, a, log)
    {
      hide Settled, Recoverable, OpOk, OpStores, OpModel, Cut, Run;
      var s := OpStores(cfg, w0, op);
      OpSurvives(cfg, w0, a, op, |s|);
      WholeRun(w0, s);
      a := OpModel(cfg, w0, a, op, |s|);
    }

    /** Retain a descriptor before advancing the available cursor. */
    method Discover(r: Request) returns (res: Result<nat, string>)
      requires Valid()
      modifies this
      ensures Valid() && Did(cfg, old(w), old(a), old(log), Op.Discover(r), w, a, log)
      ensures res.Ok? <==> !old(a).failed && InflightProgress.Waiting(cfg, old(a), r)
      ensures res.Ok? ==> a == Find(old(a), r) && res.value == |a.found|
    {
      hide Settled, DiscoverOk, CanFind, DiscoverStores, Cut, Find, Run;
      DiscoverGuard(cfg, w, a, r);
      InflightProgress.TakesExactly(cfg, w, a, r, false);
      ghost var w0, l0, s := w, log, DiscoverStores(cfg, w.m, r);
      DiscoverLayout(cfg, w.m, r);
      res := PrepareDiscovery(r);
      if res.Ok? {
        FinishDiscovery(r, res.value, w0, l0, s);
        CutAll(w0, s);
        FindQueue(cfg, a, r);
        FoundNumber(cfg, w0, a, r);
        Follow(Op.Discover(r), w0, l0);
      }
    }

    method PrepareDiscovery(r: Request) returns (res: Result<nat, string>)
      modifies this`w, this`log
      ensures res.Ok? <==> DiscoverOk(cfg, old(w.m), r)
      ensures res.Ok? ==> res.value == old(w.m.discovery) + 1
      ensures res.Ok? ==> var s := DiscoverStores(cfg, old(w.m), r);
        |s| == 12 && w == Cut(old(w), s, 10) && log == old(log) + s[..10]
      ensures res.Err? ==> w == old(w) && log == old(log)
    {
      if w.m.failed != 0 { return Err("FAILED attachment requires explicit recovery or a fresh reset"); }
      if !r.Valid(cfg.imageBytes) { return Err("invalid inflight logical range"); }
      if !cfg.Has(r.Where()) || r.Where() !in w.m.cells || r.queue >= |w.m.queues| {
        return Err("inflight queue or head out of range");
      }
      if w.m.queues[r.queue].version != 1 || w.m.queues[r.queue].available != r.available {
        return Err("discovery does not match saved available cursor");
      }
      if w.m.cells[r.Where()].state != EMPTY || w.m.cells[r.Where()].inflight != 0 {
        return Err("discovery reused an owned descriptor");
      }
      if w.m.discovery >= U64_MAX { return Err("discovery IDs exhausted"); }
      ghost var w0, l0, s := w, log, DiscoverStores(cfg, w.m, r);
      DiscoverLayout(cfg, w.m, r);
      CutNothing(w0, l0, s);
      hide *;
      res := Ok(w.m.discovery + 1);
      StoreDiscovery(r, res.value, w0, l0, s);
    }

    method StoreDiscovery(r: Request, d: nat, ghost w0: World, ghost l0: seq<Store>, ghost s: seq<Store>)
      requires s == DiscoverStores(cfg, w0.m, r) && d == w0.m.discovery + 1
      requires w == w0 && log == l0
      modifies this`w, this`log
      ensures |s| == 12 && w == Cut(w0, s, 10) && log == l0 + s[..10]
    {
      DiscoverLayout(cfg, w0.m, r);
      CutNothing(w0, l0, s);
      hide *;
      Issue(Slot(r.Where(), KindCode, r.kind.Code()), w0, l0, s, 0);
      Issue(Slot(r.Where(), QueueNumber, r.queue), w0, l0, s, 1);
      Issue(Slot(r.Where(), Head, r.head), w0, l0, s, 2);
      Issue(Slot(r.Where(), Available, r.available), w0, l0, s, 3);
      Issue(Slot(r.Where(), Offset, r.offset), w0, l0, s, 4);
      Issue(Slot(r.Where(), Length, r.length), w0, l0, s, 5);
      Issue(Slot(r.Where(), Attachment, cfg.identity.attachment), w0, l0, s, 6);
      Issue(Slot(r.Where(), Flags, 0), w0, l0, s, 7);
      Issue(Slot(r.Where(), Discovery, d), w0, l0, s, 8);
      Issue(Slot(r.Where(), State, DISCOVERED), w0, l0, s, 9);
    }

    method FinishDiscovery(r: Request, d: nat, ghost w0: World, ghost l0: seq<Store>, ghost s: seq<Store>)
      requires |s| == 12 && s[10] == HighDiscovery(d) && s[11] == Avail(r.queue, Next16(r.available))
      requires w == Cut(w0, s, 10) && log == l0 + s[..10]
      modifies this`w, this`log
      ensures w == Cut(w0, s, 12) && log == l0 + s[..12]
    {
      hide Cut;
      Issue(HighDiscovery(d), w0, l0, s, 10);
      Issue(Avail(r.queue, Next16(r.available)), w0, l0, s, 11);
    }

    /** Admit, or reject, a request; its head is discovered first if it is new. */
    method Admit(r: Request, rejected: bool) returns (res: Result<Entry, string>)
      requires Valid()
      modifies this
      ensures Valid() && Did(cfg, old(w), old(a), old(log), Enter(r, rejected), w, a, log)
      ensures res.Ok? <==> !old(a).failed && InflightProgress.Admissible(cfg, old(a), r, rejected)
      ensures res.Ok? ==> |a.history| == |old(a.history)| + 1 && res.value == a.history[|a.history| - 1]
      ensures res.Ok? ==> var e := res.value;
        && e.request == r && e.rejected == rejected && e.serial == |a.history| && e.boundary == old(a).mutation
        && e.mutation == if Alters(e) then e.boundary + 1 else 0
    {
      hide Settled, AdmitOk, CanEnter, OpStores, OpModel, Entering, Cut, Run;
      ghost var w0, a0, l0 := w, a, log;
      InflightProgress.TakesExactly(cfg, w, a, r, rejected);
      res := Prepare(r, rejected);
      if res.Ok? {
        Commit(res.value, r, rejected, w0, l0);
        Follow(Enter(r, rejected), w0, l0);
        EnteredLast(cfg, w0, a0, r, rejected);
      }
    }

    /** From `PREPARED` on. */
    method Commit(e: Entry, r: Request, rejected: bool, ghost w0: World, ghost l0: seq<Store>)
      requires var s := OpStores(cfg, w0, Enter(r, rejected));
        && |s| >= 10 && e == Entering(cfg, w0.m, r, rejected).1
        && w == Cut(w0, s, |s| - 5) && log == l0 + s[..|s| - 5]
      modifies this`w, this`log
      ensures var s := OpStores(cfg, w0, Enter(r, rejected)); w == Run(w0, s) && log == l0 + s
    {
      hide *;
      ghost var s := OpStores(cfg, w0, Enter(r, rejected));
      ghost var n := |s| - 10;
      EnterLayout(cfg, w0, r, rejected);
      AdmitLayout(e, s, n);
      Activate(e, w0, l0, s, n + 5);
      FinishAdmission(e, w0, l0, s, n);
      CutAll(w0, s);
    }

    /** The admission's checks and the stores up to `PREPARED`. */
    method Prepare(r: Request, rejected: bool) returns (res: Result<Entry, string>)
      requires Valid()
      modifies this`w, this`log
      ensures res.Ok? <==> AdmitOk(cfg, old(w.m), r, rejected)
      ensures res.Ok? ==> var s := OpStores(cfg, old(w), Enter(r, rejected));
        && |s| >= 10 && res.value == Entering(cfg, old(w.m), r, rejected).1
        && w == Cut(old(w), s, |s| - 5) && log == old(log) + s[..|s| - 5]
      ensures res.Err? ==> w == old(w) && log == old(log)
    {
      hide Settled, DiscoverOk, Cut, Run, ReadSlot, DiscoverStores, AdmitStores, OpStores, Entering;
      if w.m.failed != 0 { return Err("FAILED attachment requires explicit recovery or a fresh reset"); }
      if !r.Valid(cfg.imageBytes) { return Err("invalid inflight logical range"); }
      if w.m.serial >= U64_MAX { return Err("operation serial exhausted"); }
      var boundary := w.m.mutation;
      if r.Mutates() && !rejected && boundary >= U64_MAX { return Err("mutation sequence exhausted"); }
      if !cfg.Has(r.Where()) || r.Where() !in w.m.cells { return Err("inflight queue or head out of range"); }
      var serial := w.m.serial + 1;
      var mutation := if r.Mutates() && !rejected then boundary + 1 else 0;
      ghost var w0, l0, s := w, log, OpStores(cfg, w, Enter(r, rejected));
      EnterLayout(cfg, w0, r, rejected);
      CutNothing(w0, l0, s);
      if w.m.cells[r.Where()].state == EMPTY {
        var first := PrepareDiscovery(r);
        if first.Err? { return Err(first.error); }
        DiscoverLayout(cfg, w0.m, r);
        FinishDiscovery(r, first.value, w0, l0, DiscoverStores(cfg, w0.m, r));
        CutPrefix(w0, s, DiscoverStores(cfg, w0.m, r));
      }
      PreparedRead(cfg, w0, a, r, rejected);
      var reading := ReadSlot(cfg, w.m.cells[r.Where()], r.Where());
      if reading.Err? { return Err(reading.error); }
      if reading.value.Vacant? { return Err("admission has no discovered descriptor"); }
      if reading.value.state != DISCOVERED || reading.value.entry.request != r || w.m.cells[r.Where()].inflight != 0 {
        return Err("admission differs from discovered request");
      }
      var e := Entry(r, serial, mutation, boundary, cfg.identity.attachment, rejected, reading.value.entry.discovery);
      EnteringFields(cfg, w0.m, r, rejected);
      StorePrepared(e, w0, l0, s, |s| - 10);
      res := Ok(e);
    }

    method StorePrepared(e: Entry, ghost w0: World, ghost l0: seq<Store>, ghost s: seq<Store>, ghost n: nat)
      requires |s| == n + 10 && s[n..] == AdmitStores(e)
      requires w == Cut(w0, s, n) && log == l0 + s[..n]
      modifies this`w, this`log
      ensures w == Cut(w0, s, n + 5) && log == l0 + s[..n + 5]
    {
      AdmitLayout(e, s, n);
      hide *;
      Issue(Slot(e.request.Where(), Flags, if e.rejected then 1 else 0), w0, l0, s, n);
      Issue(Slot(e.request.Where(), Serial, e.serial), w0, l0, s, n + 1);
      Issue(Slot(e.request.Where(), Mutation, e.mutation), w0, l0, s, n + 2);
      Issue(Slot(e.request.Where(), Boundary, e.boundary), w0, l0, s, n + 3);
      Issue(Slot(e.request.Where(), State, PREPARED), w0, l0, s, n + 4);
    }

    method Activate(e: Entry, ghost w0: World, ghost l0: seq<Store>, ghost s: seq<Store>, ghost n: nat)
      requires n + 3 <= |s|
      requires s[n] == Slot(e.request.Where(), Counter, e.serial)
      requires s[n + 1] == Slot(e.request.Where(), Inflight, 1) && s[n + 2] == Slot(e.request.Where(), State, ACTIVE)
      requires w == Cut(w0, s, n) && log == l0 + s[..n]
      modifies this`w, this`log
      ensures w == Cut(w0, s, n + 3) && log == l0 + s[..n + 3]
    {
      hide *;
      Issue(Slot(e.request.Where(), Counter, e.serial), w0, l0, s, n);
      Issue(Slot(e.request.Where(), Inflight, 1), w0, l0, s, n + 1);
      Issue(Slot(e.request.Where(), State, ACTIVE), w0, l0, s, n + 2);
    }

    method FinishAdmission(e: Entry, ghost w0: World, ghost l0: seq<Store>, ghost s: seq<Store>, ghost n: nat)
      requires |s| == n + 10 && s[n..] == AdmitStores(e)
      requires w == Cut(w0, s, n + 8) && log == l0 + s[..n + 8]
      modifies this`w, this`log
      ensures w == Cut(w0, s, n + 10) && log == l0 + s
    {
      AdmitLayout(e, s, n);
      hide *;
      Issue(HighSerial(e.serial), w0, l0, s, n + 8);
      Issue(HighMutation(if e.mutation > e.boundary then e.mutation else e.boundary), w0, l0, s, n + 9);
      assert s[..n + 10] == s;
    }

    method Fail()
      requires Valid()
      modifies this
      ensures Valid() && Did(cfg, old(w), old(a), old(log), Poison, w, a, log)
      ensures a == old(a).(failed := true)
    {
      hide Settled, Cut;
      ghost var w0, l0, s := w, log, [Store.Fail];
      CutNothing(w0, l0, s);
      Issue(Store.Fail, w0, l0, s, 0);
      CutAll(w0, s);
      Follow(Poison, w0, l0);
    }

    /** Called only once the logical index holds every mutation up to `prefix`. */
    method Publish(prefix: nat) returns (res: Result<(), string>)
      requires Valid()
      modifies this
      ensures Valid() && Did(cfg, old(w), old(a), old(log), Advance(prefix), w, a, log)
      ensures res.Ok? <==> !old(a).failed && old(a).published <= prefix <= old(a).mutation
      ensures a == if res.Ok? then old(a).(published := prefix) else old(a)
    {
      hide Settled, Cut, Run;
      PublishGuard(cfg, w, a, prefix);
      if w.m.failed != 0 { return Err("FAILED attachment requires explicit recovery or a fresh reset"); }
      if prefix < w.m.published || prefix > w.m.mutation {
        return Err("published prefix outside issued mutation range");
      }
      ghost var w0, l0, s := w, log, OpStores(cfg, w, Advance(prefix));
      CutNothing(w0, l0, s);
      Issue(Prefix(prefix), w0, l0, s, 0);
      CutAll(w0, s);
      Follow(Advance(prefix), w0, l0);
      res := Ok(());
    }

    /** A queue never enabled takes its cursors from the guest's ring. */
    method InitializeQueue(q: nat, available: u16) returns (res: Result<(), string>)
      requires Valid()
      modifies this
      ensures Valid() && Did(cfg, old(w), old(a), old(log), Initialize(q, available), w, a, log)
      ensures res.Ok? <==> !old(a).failed && q < |old(a).cursors| && !old(a).cursors[q].live
      ensures res.Ok? ==> q < |old(w).guest| && a == Rebase(old(a), q, available, old(w).guest[q])
    {
      hide Settled, Cut, Run;
      InflightProgress.SetsUpExactly(cfg, w, a, q);
      if w.m.failed != 0 { return Err("FAILED attachment requires explicit recovery or a fresh reset"); }
      if q >= cfg.queues || q >= |w.m.queues| { return Err("inflight queue or head out of range"); }
      if w.m.queues[q].version != 0 { return Err("inflight queue already initialized"); }
      ghost var op := Initialize(q, available);
      ghost var w0, l0, s := w, log, OpStores(cfg, w, op);
      var used: u16 := if q < |w.guest| then w.guest[q] else 0;
      CutNothing(w0, l0, s);
      Issue(Descriptors(q, cfg.size), w0, l0, s, 0);
      Issue(Used(q, used), w0, l0, s, 1);
      Issue(Avail(q, available), w0, l0, s, 2);
      Issue(Version(q, 1), w0, l0, s, 3);
      CutAll(w0, s);
      Follow(op, w0, l0);
      res := Ok(());
    }

    /** `delivered` is whether status, used element and used index reached the guest. */
    method Complete(e: Entry, used: u16, delivered: bool) returns (res: Result<(), string>)
      requires Valid()
      modifies this
      ensures Valid() && Did(cfg, old(w), old(a), old(log), Op.Complete(e, used, delivered), w, a, log)
      ensures var due := !old(a).failed && InflightProgress.Open(old(a), e, used) &&
          InflightProgress.Due(e, old(a).published);
        && (res.Ok? <==> due && delivered)
        && a == if !due then old(a) else if delivered then InflightProgress.Answered(old(a), e, true)
                else old(a).(failed := true)
    {
      hide Settled, CompleteOk, CanComplete, Cut, Run;
      InflightProgress.CompletesExactly(cfg, w, a, e, used);
      ghost var op := Op.Complete(e, used, delivered);
      ghost var w0, l0, s := w, log, OpStores(cfg, w, op);
      var ready := PrepareCompletion(e, used, false, w0, l0, s);
      if ready.Err? { return Err(ready.error); }
      if !delivered {
        Issue(Store.Fail, w0, l0, s, 2);
        CutAll(w0, s);
        Follow(op, w0, l0);
        return Err("used publication failed");
      }
      Issue(Store.Publish(e.request.queue), w0, l0, s, 2);
      FinishCompletion(e, Next16(used), w0, l0, s, 3);
      CutAll(w0, s);
      Follow(op, w0, l0);
      res := Ok(());
    }

    /** Only an IOERR may retire an unpublished mutation, and only after failure. */
    method CompleteError(e: Entry, used: u16, delivered: bool) returns (res: Result<(), string>)
      requires Valid()
      modifies this
      ensures Valid() && Did(cfg, old(w), old(a), old(log), Retire(e, used, delivered), w, a, log)
      ensures res.Ok? <==> delivered && old(a).failed && InflightProgress.Open(old(a), e, used)
      ensures res.Ok? ==> e.request.queue < |old(a).cursors| && a == InflightProgress.Answered(old(a), e, false)
      ensures res.Err? ==> a == old(a)
    {
      hide Settled, CompleteOk, CanComplete, Cut, Run;
      InflightProgress.CompletesExactly(cfg, w, a, e, used);
      ghost var op := Retire(e, used, delivered);
      ghost var w0, l0, s := w, log, OpStores(cfg, w, op);
      var ready := PrepareCompletion(e, used, true, w0, l0, s);
      if ready.Err? { return Err(ready.error); }
      if delivered {
        Issue(Store.Publish(e.request.queue), w0, l0, s, 2);
        FinishCompletion(e, Next16(used), w0, l0, s, 3);
      }
      CutAll(w0, s);
      Follow(op, w0, l0);
      res := if delivered then Ok(()) else Err("used publication failed");
    }

    method PrepareCompletion(e: Entry, used: u16, failed: bool, ghost w0: World, ghost l0: seq<Store>,
        ghost s: seq<Store>)
      returns (res: Result<(), string>)
      requires w == w0 && log == l0 && |s| >= 2 && s[..2] == RefusedStores(e)
      modifies this`w, this`log
      ensures res.Ok? <==> CompleteOk(cfg, w0.m, e, used, failed)
      ensures res.Ok? ==> w == Cut(w0, s, 2) && log == l0 + s[..2]
      ensures res.Err? ==> w == w0 && log == l0
    {
      hide ReadSlot, Cut;
      var id := e.request.Where();
      if failed {
        if w.m.failed != 1 { return Err("IOERR retirement requires a FAILED attachment"); }
      } else if w.m.failed != 0 {
        return Err("FAILED attachment requires explicit recovery or a fresh reset");
      }
      if !cfg.Has(id) || id !in w.m.cells || id.queue >= |w.m.queues| {
        return Err("inflight queue or head out of range");
      }
      var reading := ReadSlot(cfg, w.m.cells[id], id);
      if reading.Err? { return Err(reading.error); }
      if reading.value.Vacant? { return Err("completion has no active request"); }
      if reading.value.state != ACTIVE || reading.value.entry != e || w.m.queues[id.queue].used != used {
        return Err("completion identity or used cursor differs");
      }
      if !failed && e.Required() > w.m.published {
        return Err("completion precedes its captured publication boundary");
      }
      res := Ok(());
      CutNothing(w0, l0, s);
      assert s[0] == s[..2][0] && s[1] == s[..2][1];
      hide *;
      Issue(Slot(id, Next, e.request.head), w0, l0, s, 0);
      Issue(LastHead(e.request.queue, e.request.head), w0, l0, s, 1);
    }

    method FinishCompletion(e: Entry, used: u16, ghost w0: World, ghost l0: seq<Store>, ghost s: seq<Store>,
        ghost n: nat)
      requires n + 3 <= |s| && s[n] == Slot(e.request.Where(), Inflight, 0)
      requires s[n + 1] == Used(e.request.queue, used) && s[n + 2] == Slot(e.request.Where(), State, EMPTY)
      requires w == Cut(w0, s, n) && log == l0 + s[..n]
      modifies this`w, this`log
      ensures w == Cut(w0, s, n + 3) && log == l0 + s[..n + 3]
    {
      hide *;
      Issue(Slot(e.request.Where(), Inflight, 0), w0, l0, s, n);
      Issue(Used(e.request.queue, used), w0, l0, s, n + 1);
      Issue(Slot(e.request.Where(), State, EMPTY), w0, l0, s, n + 2);
    }

    /** Rebase a quiesced queue whose guest ring was reset to `used`. */
    method ResetQueue(q: nat, available: u16, used: u16) returns (res: Result<(), string>)
      requires Valid()
      modifies this
      ensures Valid()
      ensures res.Ok? <==>
        && !old(a).failed && q < |old(a).cursors| && old(a).cursors[q].live
        && forall id | id in old(a).owner && id.queue == q :: old(a).owner[id] == Free
      ensures res.Ok? ==> q < |old(a).cursors| && a == Rebase(old(a), q, available, used)
      ensures res.Ok? ==> q < |old(w).guest| && q < |old(w).m.queues| && w == Rebased(old(w), q, available, used)
      ensures res.Ok? ==> log == old(log) + ResetStores(q, available, used)
      ensures res.Err? ==> w == old(w) && a == old(a) && log == old(log)
    {
      hide Settled, Cut, Run;
      InflightProgress.SetsUpExactly(cfg, w, a, q);
      if w.m.failed != 0 { return Err("FAILED attachment requires explicit recovery or a fresh reset"); }
      if q >= cfg.queues || q >= |w.m.queues| { return Err("inflight queue or head out of range"); }
      if w.m.queues[q].version != 1 { return Err("cannot reset an uninitialized inflight queue"); }
      var h := 0;
      while h < cfg.size
        invariant h <= cfg.size && w == old(w) && a == old(a) && log == old(log)
        invariant forall i | 0 <= i < h ::
          Id(q, i) in w.m.cells && w.m.cells[Id(q, i)].state == EMPTY && w.m.cells[Id(q, i)].inflight == 0
      {
        if Id(q, h) !in w.m.cells { return Err("inflight queue or head out of range"); }
        if w.m.cells[Id(q, h)].state != EMPTY || w.m.cells[Id(q, h)].inflight != 0 {
          return Err("cannot reset a queue with outstanding ownership");
        }
        h := h + 1;
      }
      ResetQuiet(cfg, w, a, q);
      ResetSettles(cfg, w, a, q, available, used);
      w := GuestReset(w, q, used);
      ghost var w0, l0, s := w, log, ResetStores(q, available, used);
      ResetRun(old(w), q, available, used);
      CutNothing(w0, l0, s);
      Issue(Used(q, used), w0, l0, s, 0);
      Issue(Avail(q, available), w0, l0, s, 1);
      CutAll(w0, s);
      a := Rebase(a, q, available, used);
      res := Ok(());
    }

    /**
     * Reconcile with the guest's used indices. Nothing is stored until every
     * check has passed, whatever the mapping holds.
     */
    method Reconcile(guest: seq<Option<u16>>) returns (res: Result<Replay, string>)
      requires Shaped(cfg, w.m) && |w.guest| == cfg.queues
      modifies this
      ensures var plan := InflightRecovery.Reconcile(cfg, old(w.m), guest);
        && (res.Ok? <==> plan.Ok?)
        && (plan.Err? ==> w == old(w) && log == old(log) && a == old(a))
        && (plan.Ok? ==>
             w == Run(old(w), plan.value.stores) && log == old(log) + plan.value.stores &&
             res.value == plan.value.replay)
      ensures Recoverable(cfg, old(w), old(a)) && guest == GuestView(old(w)) ==>
        && (res.Ok? <==> !old(a).failed)
        && (res.Ok? ==> Valid() && a == Settle(old(a)) && Exact(cfg, old(a), res.value))
    {
      ghost var w0, l0, a0 := w, log, a;
      hide Settled, Recoverable, Cut, Run, ScanOk, All, Completed, Latest, CursorOk, HighestSerial, HighestMutation,
           FinishAll, RepairStores, Entries, Waiting, Sort, CursorStores, Settle, Exact, GuestView;
      if Recoverable(cfg, w, a) && guest == GuestView(w) {
        ReconcileSettles(cfg, w, a);
        if !a.failed { ReplayExact(cfg, w, a); }
      }
      if !HeaderOk(cfg, w.m) { return Err("inflight header differs"); }
      var scanned := Scan(cfg, w.m);
      if scanned.Err? { return Err(scanned.error); }
      var saved := scanned.value;
      if |guest| != cfg.queues { return Err("missing guest queue cursors"); }
      var completed := Interruptions(w.m, saved, guest);
      if completed.Err? { return Err(completed.error); }
      var done := completed.value;
      var latest, serial, mutation := Highest(w.m, saved);
      if !CursorOk(w.m, latest) { return Err("newest discovery cannot repair available cursor"); }
      var published := w.m.published;
      var discovery := if latest.Some? then latest.value.entry.discovery else w.m.discovery;
      ghost var s := InflightRecovery.Reconcile(cfg, w.m, guest).value.stores;
      ghost var n := |FinishAll(done)|;
      ghost var k := |RepairStores(done, saved)|;
      PlanParts(done, saved, latest, serial, mutation);
      CutNothing(w0, l0, s);
      FinishEach(done, w0, l0, s);
      var entries, discovered := RepairEach(done, saved, w0, l0, s, n);
      FinishCounters(latest, serial, mutation, w0, l0, s, n + k);
      CutAll(w0, s);
      res := Ok(Replay(entries, Sort(discovered, OrderOf()), discovery, serial, mutation, published));
      a := Settle(a);
    }

    /** Each completion the guest has seen, in the order of normal retirement. */
    method FinishEach(done: seq<(Entry, u16)>, ghost w0: World, ghost l0: seq<Store>, ghost s: seq<Store>)
      requires FinishAll(done) <= s && w == w0 && log == l0
      modifies this`w, this`log
      ensures w == Cut(w0, s, |FinishAll(done)|) && log == l0 + s[..|FinishAll(done)|]
    {
      hide Cut, FinishAll;
      var i := 0;
      ghost var n := 0;
      FinishNone(done);
      CutNothing(w0, l0, s);
      while i < |done|
        invariant i <= |done| && n == |FinishAll(done[..i])| <= |s|
        invariant w == Cut(w0, s, n) && log == l0 + s[..n]
      {
        FinishPlace(done, s, i);
        FinishCompletion(done[i].0, done[i].1, w0, l0, s, n);
        n := n + 3;
        i := i + 1;
      }
      assert done[..|done|] == done;
    }

    /** Each saved record: dropped, kept waiting, or activated again. */
    method RepairEach(done: seq<(Entry, u16)>, saved: seq<Saved>, ghost w0: World, ghost l0: seq<Store>,
        ghost s: seq<Store>, ghost b: nat)
      returns (entries: seq<Entry>, discovered: seq<(nat, Request)>)
      requires b <= |s| && RepairStores(done, saved) <= s[b..]
      requires w == Cut(w0, s, b) && log == l0 + s[..b]
      modifies this`w, this`log
      ensures entries == Entries(done, saved) && discovered == Waiting(done, saved)
      ensures var n := b + |RepairStores(done, saved)|; n <= |s| && w == Cut(w0, s, n) && log == l0 + s[..n]
    {
      hide Cut, RepairStores, IsDone;
      entries, discovered := [], [];
      var i := 0;
      ghost var n := b;
      RepairNone(done, saved);
      while i < |saved|
        invariant i <= |saved| && n == b + |RepairStores(done, saved[..i])| <= |s|
        invariant w == Cut(w0, s, n) && log == l0 + s[..n]
        invariant entries == Entries(done, saved[..i]) && discovered == Waiting(done, saved[..i])
      {
        RepairPlace(done, saved, s[b..], i);
        assert saved[..i + 1][..i] == saved[..i];
        var r := saved[i];
        ghost var rs := RecordStores(done, r);
        assert s[n..n + |rs|] == rs;
        var skip := AlreadyDone(done, r.entry);
        if skip {
        } else if r.state == DISCOVERED {
          discovered := discovered + [(r.entry.discovery, r.entry.request)];
        } else if r.state == ACTIVE && !r.inflight {
          assert s[n] == s[n..n + |rs|][0];
          Issue(Slot(r.Where(), State, EMPTY), w0, l0, s, n);
          n := n + 1;
        } else {
          assert s[n] == s[n..n + |rs|][0] && s[n + 1] == s[n..n + |rs|][1] && s[n + 2] == s[n..n + |rs|][2];
          Activate(r.entry, w0, l0, s, n);
          n := n + 3;
          entries := entries + [r.entry];
        }
        i := i + 1;
      }
      assert saved[..|saved|] == saved;
    }

    method FinishCounters(latest: Option<Saved>, serial: nat, mutation: nat, ghost w0: World, ghost l0: seq<Store>,
        ghost s: seq<Store>, ghost b: nat)
      requires b <= |s| && s[b..] == CursorStores(latest) + [HighSerial(serial), HighMutation(mutation)]
      requires w == Cut(w0, s, b) && log == l0 + s[..b]
      modifies this`w, this`log
      ensures w == Cut(w0, s, |s|) && log == l0 + s
    {
      hide Cut;
      assert forall k | b <= k < |s| :: s[k] == s[b..][k - b];
      ghost var n := b;
      if latest.Some? {
        var r := latest.value.entry;
        Issue(HighDiscovery(r.discovery), w0, l0, s, n);
        Issue(Avail(r.request.queue, Next16(r.request.available)), w0, l0, s, n + 1);
        n := n + 2;
      }
      Issue(HighSerial(serial), w0, l0, s, n);
      Issue(HighMutation(mutation), w0, l0, s, n + 1);
      assert s[..n + 2] == s;
    }
  }

  lemma {:induction false} FinishNone(done: seq<(Entry, u16)>)
    ensures FinishAll(done[..0]) == []
  {
    assert done[..0] == [];
  }

  lemma {:induction false} FinishPrefix(done: seq<(Entry, u16)>, i: nat)
    requires i <= |done|
    ensures FinishAll(done[..i]) <= FinishAll(done)
    decreases |done|
  {
    if i == |done| {
      assert done[..i] == done;
    } else {
      FinishPrefix(done[..|done| - 1], i);
      assert done[..|done| - 1][..i] == done[..i];
    }
  }

  /** Where the `i`-th completion's three stores sit. */
  lemma {:induction false} FinishPlace(done: seq<(Entry, u16)>, s: seq<Store>, i: nat)
    requires i < |done| && FinishAll(done) <= s
    ensures |FinishAll(done[..i + 1])| == |FinishAll(done[..i])| + 3 <= |s|
    ensures var n := |FinishAll(done[..i])|; s[n..n + 3] == FinishStores(done[i].0, done[i].1)
    ensures var n := |FinishAll(done[..i])|; var e := done[i].0;
      && s[n] == Slot(e.request.Where(), Inflight, 0) && s[n + 1] == Used(e.request.queue, done[i].1)
      && s[n + 2] == Slot(e.request.Where(), State, EMPTY)
  {
    FinishPrefix(done, i + 1);
    assert done[..i + 1][..i] == done[..i];
    var n := |FinishAll(done[..i])|;
    assert FinishAll(done[..i + 1]) == FinishAll(done[..i]) + FinishStores(done[i].0, done[i].1);
    assert s[..n + 3] == FinishAll(done[..i + 1]);
    assert s[n] == s[..n + 3][n] && s[n + 1] == s[..n + 3][n + 1] && s[n + 2] == s[..n + 3][n + 2];
  }

  lemma {:induction false} RepairNone(done: seq<(Entry, u16)>, saved: seq<Saved>)
    ensures RepairStores(done, saved[..0]) == [] && Entries(done, saved[..0]) == [] && Waiting(done, saved[..0]) == []
  {
    assert saved[..0] == [];
  }

  lemma {:induction false} RepairPrefix(done: seq<(Entry, u16)>, saved: seq<Saved>, i: nat)
    requires i <= |saved|
    ensures RepairStores(done, saved[..i]) <= RepairStores(done, saved)
    decreases |saved|
  {
    hide RecordStores;
    if i == |saved| {
      assert saved[..i] == saved;
    } else {
      RepairPrefix(done, saved[..|saved| - 1], i);
      assert saved[..|saved| - 1][..i] == saved[..i];
    }
  }

  /** Where the `i`-th record's stores sit. */
  lemma {:induction false} RepairPlace(done: seq<(Entry, u16)>, saved: seq<Saved>, t: seq<Store>, i: nat)
    requires i < |saved| && RepairStores(done, saved) <= t
    ensures var n := |RepairStores(done, saved[..i])|; var rs := RecordStores(done, saved[i]);
      && |RepairStores(done, saved[..i + 1])| == n + |rs| <= |t|
      && t[n..n + |rs|] == rs
  {
    hide RecordStores;
    RepairPrefix(done, saved, i + 1);
    assert saved[..i + 1][..i] == saved[..i];
    var n := |RepairStores(done, saved[..i])|;
    var rs := RecordStores(done, saved[i]);
    var u := RepairStores(done, saved[..i + 1]);
    assert u == RepairStores(done, saved[..i]) + rs;
    assert t[..|u|] == u;
    assert t[n..n + |rs|] == t[..|u|][n..];
  }

  lemma {:induction false} PlanParts(done: seq<(Entry, u16)>, saved: seq<Saved>, latest: Option<Saved>, serial: nat,
      mutation: nat)
    ensures var s := FinishAll(done) + RepairStores(done, saved) + CursorStores(latest) +
      [HighSerial(serial), HighMutation(mutation)];
      var n := |FinishAll(done)|; var k := |RepairStores(done, saved)|;
      && FinishAll(done) <= s && RepairStores(done, saved) <= s[n..]
      && s[n + k..] == CursorStores(latest) + [HighSerial(serial), HighMutation(mutation)]
  {
    hide FinishAll, RepairStores, CursorStores;
  }

  lemma {:induction false} ResetRun(w: World, q: nat, available: u16, used: u16)
    requires q < |w.guest| && q < |w.m.queues|
    ensures Run(GuestReset(w, q, used), ResetStores(q, available, used)) == Rebased(w, q, available, used)
  {
    var g := GuestReset(w, q, used);
    var s := ResetStores(q, available, used);
    assert s[..0] == [];
    CutStep(g, s, 0);
    CutStep(g, s, 1);
    WholeRun(g, s);
  }

  lemma {:induction false} PublishGuard(cfg: Config, w: World, a: Model, prefix: nat)
    requires Settled(cfg, w, a)
    ensures CanPublish(a, prefix) <==> OpOk(cfg, w.m, Advance(prefix))
  {
    SettledExact(cfg, w, a);
  }

  lemma {:induction false} AdmitLayout(e: Entry, s: seq<Store>, n: nat)
    requires |s| == n + 10 && s[n..] == AdmitStores(e)
    ensures var id := e.request.Where();
      && s[n] == Slot(id, Flags, if e.rejected then 1 else 0) && s[n + 1] == Slot(id, Serial, e.serial)
      && s[n + 2] == Slot(id, Mutation, e.mutation) && s[n + 3] == Slot(id, Boundary, e.boundary)
      && s[n + 4] == Slot(id, State, PREPARED) && s[n + 5] == Slot(id, Counter, e.serial)
      && s[n + 6] == Slot(id, Inflight, 1) && s[n + 7] == Slot(id, State, ACTIVE)
      && s[n + 8] == HighSerial(e.serial)
      && s[n + 9] == HighMutation(if e.mutation > e.boundary then e.mutation else e.boundary)
  {
    assert forall i | 0 <= i < 10 :: s[n + i] == s[n..][i];
    assert s[n] == s[n + 0];
  }

  lemma {:induction false} EnterLayout(cfg: Config, w: World, r: Request, rejected: bool)
    ensures var s := OpStores(cfg, w, Enter(r, rejected)); var e := Entering(cfg, w.m, r, rejected);
      && |s| == (if e.0 then 22 else 10)
      && s[|s| - 10..] == AdmitStores(e.1)
      && (e.0 ==> s[..12] == DiscoverStores(cfg, w.m, r))
      && (e.0 <==> !(r.Where() in w.m.cells && w.m.cells[r.Where()].state != EMPTY))
  {
    StoreCounts(cfg, w.m, r, Entering(cfg, w.m, r, rejected).1);
    hide DiscoverStores, AdmitStores;
  }

  lemma {:induction false} EnteringFields(cfg: Config, m: Memory, r: Request, rejected: bool)
    ensures var e := Entering(cfg, m, r, rejected).1;
      e == Entry(r, m.serial + 1, if r.Mutates() && !rejected then m.mutation + 1 else 0, m.mutation,
                 cfg.identity.attachment, rejected, e.discovery)
  {
  }

  lemma {:induction false} CutPrefix(w: World, s: seq<Store>, t: seq<Store>)
    requires |t| <= |s| && s[..|t|] == t
    ensures Cut(w, s, |t|) == Cut(w, t, |t|) && s[..|t|] == t[..|t|]
  {
    assert t[..|t|] == t;
  }

  lemma {:induction false} CutAll(w: World, s: seq<Store>)
    ensures Cut(w, s, |s|) == Run(w, s) && s[..|s|] == s
  {
    assert s[..|s|] == s;
  }

  /** `x` shows the discovered head that the admission from `w` expects. */
  ghost predicate ReadsBack(cfg: Config, w: World, x: World, r: Request, rejected: bool)
    requires r.Where() in w.m.cells
  {
    && r.Where() in x.m.cells
    && (w.m.cells[r.Where()].state != EMPTY ==> x == w)
    && (w.m.cells[r.Where()].state == EMPTY ==> AdmitOk(cfg, w.m, r, rejected))
    && var reading := ReadSlot(cfg, x.m.cells[r.Where()], r.Where());
       && (AdmitOk(cfg, w.m, r, rejected) <==>
             && reading.Ok? && reading.value.Occupied? && reading.value.state == DISCOVERED
             && reading.value.entry.request == r && x.m.cells[r.Where()].inflight == 0)
       && (AdmitOk(cfg, w.m, r, rejected) ==>
            reading.value.entry.discovery == Entering(cfg, w.m, r, rejected).1.discovery)
  }

  /** What an admission reads back, having discovered its head if it had to. */
  lemma {:induction false} PreparedRead(cfg: Config, w: World, a: Model, r: Request, rejected: bool)
    requires Settled(cfg, w, a) && cfg.Has(r.Where()) && r.Where() in w.m.cells
    requires w.m.failed == 0 && r.Valid(cfg.imageBytes) && w.m.serial < U64_MAX
    requires r.Mutates() && !rejected ==> w.m.mutation < U64_MAX
    requires w.m.cells[r.Where()].state == EMPTY ==> DiscoverOk(cfg, w.m, r)
    ensures |OpStores(cfg, w, Enter(r, rejected))| >= 10
    ensures var s := OpStores(cfg, w, Enter(r, rejected)); ReadsBack(cfg, w, Cut(w, s, |s| - 10), r, rejected)
  {
    hide Settled, Cut, DiscoverStores, AdmitStores, OpStores, ReadsBack, DiscoverOk;
    EnterLayout(cfg, w, r, rejected);
    var s := OpStores(cfg, w, Enter(r, rejected));
    if w.m.cells[r.Where()].state != EMPTY {
      CutNothing(w, [], s);
      ReadsHeld(cfg, w, r, rejected);
    } else {
      DiscoverSurvives(cfg, w, a, r, 12);
      CutPrefix(w, s, DiscoverStores(cfg, w.m, r));
      ReadBack(cfg, Cut(w, s, 12), a, r);
      FoundNumber(cfg, w, a, r);
      ReadsNew(cfg, w, Cut(w, s, 12), r, rejected);
    }
  }

  lemma {:induction false} ReadsHeld(cfg: Config, w: World, r: Request, rejected: bool)
    requires cfg.Has(r.Where()) && r.Where() in w.m.cells && w.m.cells[r.Where()].state != EMPTY
    requires w.m.failed == 0 && r.Valid(cfg.imageBytes) && w.m.serial < U64_MAX
    requires r.Mutates() && !rejected ==> w.m.mutation < U64_MAX
    ensures ReadsBack(cfg, w, w, r, rejected)
  {
  }

  lemma {:induction false} ReadsNew(cfg: Config, w: World, x: World, r: Request, rejected: bool)
    requires cfg.Has(r.Where()) && r.Where() in w.m.cells && w.m.cells[r.Where()].state == EMPTY &&
      DiscoverOk(cfg, w.m, r)
    requires w.m.failed == 0 && r.Valid(cfg.imageBytes) && w.m.serial < U64_MAX
    requires r.Mutates() && !rejected ==> w.m.mutation < U64_MAX
    requires r.Where() in x.m.cells && x.m.cells[r.Where()].inflight == 0
    requires ReadSlot(cfg, x.m.cells[r.Where()], r.Where()) ==
      Ok(Occupied(DISCOVERED, Entry(r, 0, 0, 0, cfg.identity.attachment, false, w.m.discovery + 1)))
    ensures ReadsBack(cfg, w, x, r, rejected)
  {
    hide ReadSlot, DiscoverOk;
  }

  lemma {:induction false} ReadBack(cfg: Config, x: World, a: Model, r: Request)
    requires r.queue < |a.cursors| && Settled(cfg, x, Find(a, r)) && cfg.Has(r.Where())
    ensures r.Where() in x.m.cells && x.m.cells[r.Where()].inflight == 0
    ensures ReadSlot(cfg, x.m.cells[r.Where()], r.Where()) ==
      Ok(Occupied(DISCOVERED, Entry(r, 0, 0, 0, cfg.identity.attachment, false, |Find(a, r).found|)))
  {
    ReadFound(cfg, x, Find(a, r), r.Where());
    assert CellRef(cfg, x, Find(a, r), r.Where());
    hide ReadSlot;
  }

  lemma {:induction false} EnteredLast(cfg: Config, w: World, a: Model, r: Request, rejected: bool)
    requires Settled(cfg, w, a) && AdmitOk(cfg, w.m, r, rejected)
    ensures var b := OpModel(cfg, w, a, Enter(r, rejected), |OpStores(cfg, w, Enter(r, rejected))|);
      |b.history| == |a.history| + 1 && b.history[|a.history|] == Entering(cfg, w.m, r, rejected).1
    ensures var e := Entering(cfg, w.m, r, rejected).1;
      && e.request == r && e.rejected == rejected && e.serial == |a.history| + 1 && e.boundary == a.mutation
      && e.mutation == if Alters(e) then e.boundary + 1 else 0
  {
    hide Settled, AdmitOk, OpStores, Entering, DiscoverOk, CanFind, DiscoverStores, AdmitStores;
    EnterLayout(cfg, w, r, rejected);
    EnteringIs(cfg, w, a, r, rejected);
    EnteringFields(cfg, w.m, r, rejected);
    EnteringNumbers(cfg, w, a);
  }

  lemma {:induction false} CutNothing(w: World, log: seq<Store>, stores: seq<Store>)
    ensures Cut(w, stores, 0) == w && log + stores[..0] == log
  {
    assert stores[..0] == [];
  }

  lemma {:induction false} DiscoverLayout(cfg: Config, m: Memory, r: Request)
    ensures var s := DiscoverStores(cfg, m, r); var id := r.Where(); var d := m.discovery + 1;
      && |s| == 12
      && s[0] == Slot(id, KindCode, r.kind.Code()) && s[1] == Slot(id, QueueNumber, r.queue)
      && s[2] == Slot(id, Head, r.head) && s[3] == Slot(id, Available, r.available)
      && s[4] == Slot(id, Offset, r.offset) && s[5] == Slot(id, Length, r.length)
      && s[6] == Slot(id, Attachment, cfg.identity.attachment) && s[7] == Slot(id, Flags, 0)
      && s[8] == Slot(id, Discovery, d) && s[9] == Slot(id, State, DISCOVERED)
      && s[10] == HighDiscovery(d) && s[11] == Avail(r.queue, Next16(r.available))
  {
  }

  lemma {:induction false} FoundNumber(cfg: Config, w: World, a: Model, r: Request)
    requires Settled(cfg, w, a) && r.queue < |a.cursors|
    ensures w.m.discovery + 1 == |Find(a, r).found|
  {
    SettledExact(cfg, w, a);
  }
}
