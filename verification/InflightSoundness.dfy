/** The whole reconciliation, from any crash cut to a settled mapping. */
module InflightSoundness {
  import opened Units
  import opened Sorting
  import opened InflightLayout
  import opened InflightModel
  import opened InflightRefinement
  import opened InflightOperations
  import opened InflightRecovery
  import opened InflightReconcile
  import opened InflightRepair

  // ----- the highest identities are the model's ------------------------------

  lemma {:induction false} NewestMax(saved: seq<Saved>)
    ensures Newest(saved).None? <==> saved == []
    ensures saved != [] ==> Newest(saved).value in saved
    ensures forall i | 0 <= i < |saved| :: saved[i].entry.discovery <= Newest(saved).value.entry.discovery
    decreases |saved|
  {
    if saved != [] {
      var rest := saved[..|saved| - 1];
      NewestMax(rest);
      assert saved == rest + [saved[|saved| - 1]];
    }
  }

  lemma {:induction false} HighestMutationMax(start: nat, saved: seq<Saved>)
    ensures HighestMutation(start, saved) >= start
    ensures forall i | 0 <= i < |saved| :: saved[i].entry.mutation <= HighestMutation(start, saved)
    ensures HighestMutation(start, saved) == start ||
            exists i | 0 <= i < |saved| :: saved[i].entry.mutation == HighestMutation(start, saved)
    decreases |saved|
  {
    if saved != [] {
      var rest := saved[..|saved| - 1];
      HighestMutationMax(start, rest);
      if HighestMutation(start, saved) != start {
        if saved[|saved| - 1].entry.mutation != HighestMutation(start, saved) {
          var i :| 0 <= i < |rest| && rest[i].entry.mutation == HighestMutation(start, rest);
          assert saved[i].entry.mutation == HighestMutation(start, saved);
        }
      }
    }
  }

  /** A record's numbers stay within the model's. */
  lemma {:induction false} RecordBounds(cfg: Config, w: World, a: Model, r: Saved)
    requires ModelInv(cfg, a) && Matches(cfg, w, a) && r in All(cfg, w.m)
    ensures cfg.Has(r.Where()) && Fits(cfg, w, a, r)
    ensures r.entry.serial <= |a.history| && r.entry.mutation <= a.mutation && r.entry.discovery <= |a.found|
    ensures r.entry.discovery == |a.found| ==>
      && |a.found| > 0 && a.found[|a.found| - 1] == r.entry.request
      && a.cursors[r.Where().queue].live
      && a.cursors[r.Where().queue].available == Next16(r.entry.request.available)
  {
    hide Matches, All, ModelInv, Fits;
    AllMember(cfg, w, a, r);
    FitsBounds(cfg, w, a, r);
  }

  lemma {:induction false} FitsBounds(cfg: Config, w: World, a: Model, r: Saved)
    requires ModelInv(cfg, a) && cfg.Has(r.Where()) && Fits(cfg, w, a, r)
    ensures r.entry.serial <= |a.history| && r.entry.mutation <= a.mutation && r.entry.discovery <= |a.found|
    ensures r.entry.discovery == |a.found| ==>
      && |a.found| > 0 && a.found[|a.found| - 1] == r.entry.request
      && a.cursors[r.Where().queue].live
      && a.cursors[r.Where().queue].available == Next16(r.entry.request.available)
  {
    assert OwnerOk(cfg, a, r.Where(), a.owner[r.Where()]);
  }

  lemma {:induction false} OwnerRecorded(cfg: Config, w: World, a: Model, id: Id)
    requires ModelInv(cfg, a) && Matches(cfg, w, a) && cfg.Has(id) && !a.owner[id].Free?
    ensures RecordOf(cfg, w, a, id) in All(cfg, w.m)
    ensures RecordOf(cfg, w, a, id).Where() == id
  {
    RecordIs(cfg, w, a, id);
    AllMember(cfg, w, a, RecordOf(cfg, w, a, id));
  }

  lemma {:induction false} SerialRestored(cfg: Config, w: World, a: Model)
    requires ModelInv(cfg, a) && Matches(cfg, w, a)
    ensures HighestSerial(w.m, All(cfg, w.m)) == |a.history|
  {
    var saved := All(cfg, w.m);
    HeaderSerial(cfg, w, a);
    AllApart(cfg, w, a);
    hide ModelInv, Matches, All, Apart;
    if saved != [] {
      RecordBounds(cfg, w, a, saved[|saved| - 1]);
    }
    if w.m.serial != |a.history| {
      var e := a.history[|a.history| - 1];
      OwnerRecorded(cfg, w, a, e.request.Where());
      var i :| 0 <= i < |saved| && saved[i] == RecordOf(cfg, w, a, e.request.Where());
      assert SerialOf()(saved[i]) <= SerialOf()(saved[|saved| - 1]);
    }
  }

  lemma {:induction false} HeaderSerial(cfg: Config, w: World, a: Model)
    requires ModelInv(cfg, a) && Matches(cfg, w, a)
    ensures w.m.serial <= |a.history|
    ensures w.m.serial != |a.history| ==>
      && |a.history| > 0 && cfg.Has(a.history[|a.history| - 1].request.Where())
      && a.owner[a.history[|a.history| - 1].request.Where()] == Admitted(a.history[|a.history| - 1])
      && a.history[|a.history| - 1].serial == |a.history|
  {
    if |a.history| > 0 {
      assert NumberedAt(a.history, a.start, |a.history| - 1);
    }
  }

  lemma {:induction false} MutationRestored(cfg: Config, w: World, a: Model)
    requires ModelInv(cfg, a) && Matches(cfg, w, a)
    ensures HighestMutation(w.m.mutation, All(cfg, w.m)) == a.mutation
  {
    var saved := All(cfg, w.m);
    HeaderMutation(cfg, w, a);
    hide ModelInv, Matches, All;
    HighestMutationMax(w.m.mutation, saved);
    forall i | 0 <= i < |saved| ensures saved[i].entry.mutation <= a.mutation {
      RecordBounds(cfg, w, a, saved[i]);
    }
    if w.m.mutation != a.mutation {
      var e := a.history[|a.history| - 1];
      OwnerRecorded(cfg, w, a, e.request.Where());
      var i :| 0 <= i < |saved| && saved[i] == RecordOf(cfg, w, a, e.request.Where());
    }
  }

  lemma {:induction false} HeaderMutation(cfg: Config, w: World, a: Model)
    requires ModelInv(cfg, a) && Matches(cfg, w, a)
    ensures w.m.mutation <= a.mutation
    ensures w.m.mutation != a.mutation ==>
      && |a.history| > 0 && cfg.Has(a.history[|a.history| - 1].request.Where())
      && a.owner[a.history[|a.history| - 1].request.Where()] == Admitted(a.history[|a.history| - 1])
      && a.history[|a.history| - 1].mutation == a.mutation
  {
  }

  /** The newest saved discovery, if any is due, carries the model's cursor. */
  lemma {:induction false} LatestRestored(cfg: Config, w: World, a: Model)
    requires ModelInv(cfg, a) && Matches(cfg, w, a)
    ensures var latest := Latest(w.m, All(cfg, w.m));
      match latest
      case None => w.m.discovery == |a.found| && forall id | cfg.Has(id) && a.owner[id].Found? ::
        a.owner[id].discovery < |a.found|
      case Some(r) =>
        && r in All(cfg, w.m) && r.entry.discovery == |a.found| && r.entry.request.queue < cfg.queues
        && a.cursors[r.entry.request.queue].live
        && a.cursors[r.entry.request.queue].available == Next16(r.entry.request.available)
  {
    var saved := All(cfg, w.m);
    HeaderDiscovery(cfg, w, a);
    NewestMax(saved);
    forall i | 0 <= i < |saved| ensures saved[i].entry.discovery <= |a.found| {
      RecordBounds(cfg, w, a, saved[i]);
    }
    forall id | cfg.Has(id) && a.owner[id].Found?
      ensures saved != [] && a.owner[id].discovery <= Newest(saved).value.entry.discovery
    {
      OwnerRecorded(cfg, w, a, id);
      var i :| 0 <= i < |saved| && saved[i] == RecordOf(cfg, w, a, id);
    }
    if saved != [] {
      RecordBounds(cfg, w, a, Newest(saved).value);
    }
  }

  lemma {:induction false} HeaderDiscovery(cfg: Config, w: World, a: Model)
    requires ModelInv(cfg, a) && Matches(cfg, w, a)
    ensures w.m.discovery <= |a.found|
    ensures w.m.discovery != |a.found| ==>
      && |a.found| > 0 && cfg.Has(a.found[|a.found| - 1].Where())
      && a.owner[a.found[|a.found| - 1].Where()] == Found(a.found[|a.found| - 1], |a.found|)
  {
  }

  lemma {:induction false} CursorAccepted(cfg: Config, w: World, a: Model)
    requires ModelInv(cfg, a) && Matches(cfg, w, a)
    ensures CursorOk(w.m, Latest(w.m, All(cfg, w.m)))
  {
    LatestRestored(cfg, w, a);
    var latest := Latest(w.m, All(cfg, w.m));
    if latest.Some? {
      RecordBounds(cfg, w, a, latest.value);
      assert QueueRef(cfg, w, a, latest.value.entry.request.queue);
    }
  }

  // ----- the published completion first --------------------------------------

  ghost function FirstModel(a: Model, done: seq<(Entry, u16)>): Model {
    if done == [] then a else Settle(a)
  }

  lemma {:induction false} FinishAllOne(done: seq<(Entry, u16)>)
    requires |done| <= 1
    ensures FinishAll(done) == if done == [] then [] else FinishStores(done[0].0, done[0].1)
  {
    if done != [] {
      assert done[..0] == [];
    }
  }

  lemma {:induction false} FirstCut(cfg: Config, w: World, a: Model, f: Id, k: nat)
    requires At(cfg, w, a, f) && !a.failed && k <= |FinishAll(Late(w, a, cfg.queues))|
    ensures Mid(cfg, Cut(w, FinishAll(Late(w, a, cfg.queues)), k), a, f)
    ensures k == |FinishAll(Late(w, a, cfg.queues))| ==>
              At(cfg, Cut(w, FinishAll(Late(w, a, cfg.queues)), k), FirstModel(a, Late(w, a, cfg.queues)), f)
  {
    AtParts(cfg, w, a, f);
    hide At, ModelInv, Matches, Settle, Late;
    var done := Late(w, a, cfg.queues);
    LateFacts(cfg, w, a, cfg.queues);
    FinishAllOne(done);
    if done == [] {
      CutZero(cfg, w, a, f, []);
      assert FinishAll(done)[..0] == [];
    } else {
      var e := done[0].0;
      RetiringIsFocus(cfg, w, a, f, e.request.Where());
      FinishCut(cfg, w, a, e, k);
      if k == 3 {
        SettledAt(cfg, Cut(w, FinishAll(done), k), Settle(a), f);
      }
    }
  }

  lemma {:induction false} AtParts(cfg: Config, w: World, a: Model, f: Id)
    requires At(cfg, w, a, f)
    ensures ModelInv(cfg, a) && Matches(cfg, w, a) && Sized(cfg, w, a) && cfg.Has(f)
  {
  }

  lemma {:induction false} NoLag(cfg: Config, w: World, a: Model, id: Id)
    requires ModelInv(cfg, a) && Matches(cfg, w, a) && cfg.Has(id) && a.owner[id].Retiring? && !Lags(w, id.queue)
    ensures w.m.cells[id].inflight == 0 && w.m.queues[id.queue].used == a.cursors[id.queue].used
  {
    assert CellRef(cfg, w, a, id);
    assert QueueRef(cfg, w, a, id.queue);
    assert OwnerOk(cfg, a, id, a.owner[id]);
  }

  /** After that, every saved record still describes its head. */
  lemma {:induction false} RecordsReady(cfg: Config, w: World, a: Model, f: Id, r: Saved)
    requires At(cfg, w, a, f) && !a.failed && r in All(cfg, w.m)
    ensures cfg.Has(r.Where())
    ensures var done := Late(w, a, cfg.queues);
      Ready(cfg, Run(w, FinishAll(done)), FirstModel(a, done), done, r)
  {
    hide At, ModelInv, Matches, Late, All, Ready, Run, Fits, FinishAll;
    AtParts(cfg, w, a, f);
    var done := Late(w, a, cfg.queues);
    LateFacts(cfg, w, a, cfg.queues);
    RecordBounds(cfg, w, a, r);
    if done == [] {
      ReadyAsIs(cfg, w, a, r);
    } else {
      FinishAllOne(done);
      ReadyAfterFinish(cfg, w, a, f, done, r);
    }
  }

  /** With no completion half done, the repair starts from the mapping as it is. */
  lemma {:induction false} ReadyAsIs(cfg: Config, w: World, a: Model, r: Saved)
    requires ModelInv(cfg, a) && Matches(cfg, w, a) && Sized(cfg, w, a) && Fits(cfg, w, a, r) && cfg.Has(r.Where())
    requires a.owner[r.Where()].Retiring? ==> !Lags(w, r.Where().queue)
    ensures Ready(cfg, Run(w, FinishAll([])), FirstModel(a, []), [], r)
  {
    hide ModelInv, Matches;
    FinishAllOne([]);
    if a.owner[r.Where()].Retiring? {
      NoLag(cfg, w, a, r.Where());
    }
  }

  lemma {:induction false} ReadyAfterFinish(cfg: Config, w: World, a: Model, f: Id, done: seq<(Entry, u16)>, r: Saved)
    requires At(cfg, w, a, f) && |done| == 1 && Fits(cfg, w, a, r) && cfg.Has(r.Where())
    requires var e := done[0].0; cfg.Has(e.request.Where()) && a.owner[e.request.Where()] == Retiring(e)
    requires done[0].1 == a.cursors[done[0].0.request.queue].used
    ensures Ready(cfg, Run(w, FinishAll(done)), Settle(a), done, r)
  {
    hide ModelInv, Matches, Only;
    var e := done[0].0;
    var id := e.request.Where();
    var s := FinishStores(e, done[0].1);
    RetiringIsFocus(cfg, w, a, f, id);
    FinishCut(cfg, w, a, e, 3);
    assert s[..3] == s;
    FinishAllOne(done);
    var x := Run(w, s);
    SettledAt(cfg, x, Settle(a), f);
    AtShape(cfg, x, Settle(a), f);
    AtShape(cfg, w, a, f);
    assert IsDone(done, r.entry) <==> r.entry == e;
    if r.Where() != id && a.owner[r.Where()].Retiring? {
      RetiringIsFocus(cfg, w, a, f, r.Where());
    }
  }

  // ----- the header's counters last ------------------------------------------

  /** The newest discovery is the model's, and due on a live queue. */
  ghost predicate Due(cfg: Config, c: Model, latest: Option<Saved>) {
    latest.Some? ==>
      var r := latest.value.entry;
      && r.discovery == |c.found| > 0 && c.found[|c.found| - 1] == r.request
      && r.request.queue < cfg.queues && r.request.queue < |c.cursors|
      && c.cursors[r.request.queue].live
      && c.cursors[r.request.queue].available == Next16(r.request.available)
  }

  function CountStores(serial: nat, mutation: nat): seq<Store> { [HighSerial(serial), HighMutation(mutation)] }

  lemma {:induction false} CursorCut(cfg: Config, x: World, c: Model, f: Id, latest: Option<Saved>, k: nat)
    requires At(cfg, x, c, f) && Due(cfg, c, latest) && k <= |CursorStores(latest)|
    ensures At(cfg, Cut(x, CursorStores(latest), k), c, f)
    ensures Cut(x, CursorStores(latest), k).m.cells == x.m.cells
    ensures k == |CursorStores(latest)| && latest.None? ==> Cut(x, CursorStores(latest), k) == x
    ensures k == |CursorStores(latest)| && latest.Some? ==>
      var y := Cut(x, CursorStores(latest), k); var q := latest.value.entry.request.queue;
      y.m.discovery == |c.found| && q < |y.m.queues| && y.m.queues[q].available == c.cursors[q].available
  {
    hide At;
    var s := CursorStores(latest);
    AtShape(cfg, x, c, f);
    assert s[..0] == [];
    if k > 0 {
      CutStep(x, s, 0);
      DiscoveryCounter(cfg, x, c, f);
    }
    if k > 1 {
      CutStep(x, s, 1);
      AvailableCursor(cfg, Cut(x, s, 1), c, f, latest.value.entry.request.queue);
    }
  }

  lemma {:induction false} CountCut(cfg: Config, x: World, c: Model, f: Id, k: nat)
    requires At(cfg, x, c, f) && k <= 2
    ensures At(cfg, Cut(x, CountStores(|c.history|, c.mutation), k), c, f)
    ensures k == 2 ==>
      Cut(x, CountStores(|c.history|, c.mutation), k) ==
      x.(m := x.m.(serial := |c.history|, mutation := c.mutation))
  {
    hide At;
    var s := CountStores(|c.history|, c.mutation);
    assert s[..0] == [];
    if k > 0 {
      CutStep(x, s, 0);
      SerialCounter(cfg, x, c, f);
    }
    if k > 1 {
      CutStep(x, s, 1);
      MutationCounter(cfg, Cut(x, s, 1), c, f);
    }
  }

  lemma {:induction false} TailCut(cfg: Config, x: World, c: Model, f: Id, latest: Option<Saved>, k: nat)
    requires At(cfg, x, c, f) && Due(cfg, c, latest)
    requires k <= |CursorStores(latest) + CountStores(|c.history|, c.mutation)|
    ensures At(cfg, Cut(x, CursorStores(latest) + CountStores(|c.history|, c.mutation), k), c, f)
  {
    hide At, Due, Cut, CursorStores;
    var s := CursorStores(latest);
    CutConcat(x, s, CountStores(|c.history|, c.mutation), k);
    if k <= |s| {
      CursorCut(cfg, x, c, f, latest, k);
    } else {
      CursorCut(cfg, x, c, f, latest, |s|);
      WholeCut(x, s);
      CountCut(cfg, Run(x, s), c, f, k - |s|);
    }
  }

  lemma {:induction false} WholeCut(x: World, s: seq<Store>)
    ensures Cut(x, s, |s|) == Run(x, s)
  {
    assert s[..|s|] == s;
  }

  lemma {:induction false} NothingOwed(cfg: Config, z: World, c: Model, f: Id, j: Id)
    requires At(cfg, z, c, f) && cfg.Has(j) && j in z.m.cells && j in c.owner && Stable(z, c, j)
    requires z.m.serial == |c.history| && z.m.mutation == c.mutation && z.m.discovery == |c.found|
    requires c.owner[j].Found? && c.owner[j].discovery == |c.found| > 0 ==>
      var q := c.found[|c.found| - 1].queue;
      q < |c.cursors| && q < |z.m.queues| && z.m.queues[q].available == c.cursors[q].available
    ensures Sized(cfg, z, c) && !Between(cfg, z, c, j)
  {
    hide ModelInv, HeaderRef, QueueRef, Only;
    OwnedNumbers(cfg, c, j);
    assert CellRef(cfg, z, c, j);
  }

  lemma {:induction false} OwnedNumbers(cfg: Config, c: Model, j: Id)
    requires ModelInv(cfg, c) && j in c.owner
    ensures c.owner[j].Admitted? ==>
      c.owner[j].entry.mutation <= c.mutation && c.owner[j].entry.serial <= |c.history|
    ensures c.owner[j].Found? ==> 1 <= c.owner[j].discovery <= |c.found|
    ensures c.owner[j].Found? ==> c.found[c.owner[j].discovery - 1].queue == j.queue
  {
    hide Balanced, DoneOk;
    assert OwnerOk(cfg, c, j, c.owner[j]);
  }

  lemma {:induction false} AllSettled(cfg: Config, z: World, c: Model, f: Id)
    requires At(cfg, z, c, f)
    requires forall j | cfg.Has(j) :: Sized(cfg, z, c) && !Between(cfg, z, c, j)
    ensures Settled(cfg, z, c)
  {
  }

  lemma {:induction false} StableCells(x: World, z: World, c: Model, j: Id)
    requires j in x.m.cells && j in c.owner && Stable(x, c, j) && z.m.cells == x.m.cells
    ensures Stable(z, c, j)
  {
  }

  /** Once no head is owed a repair, the counters settle the mapping. */
  lemma {:induction false} TailSettles(cfg: Config, x: World, c: Model, f: Id, latest: Option<Saved>)
    requires At(cfg, x, c, f) && Due(cfg, c, latest)
    requires forall id | cfg.Has(id) :: id in x.m.cells && id in c.owner && Stable(x, c, id)
    requires latest.None? ==>
      x.m.discovery == |c.found| && forall id | cfg.Has(id) && id in c.owner && c.owner[id].Found? ::
        c.owner[id].discovery < |c.found|
    ensures Settled(cfg, Run(x, CursorStores(latest) + CountStores(|c.history|, c.mutation)), c)
  {
    hide At, Cut, CursorStores, Stable;
    var s := CursorStores(latest);
    var t := CountStores(|c.history|, c.mutation);
    CursorCut(cfg, x, c, f, latest, |s|);
    WholeCut(x, s);
    var y := Run(x, s);
    CountCut(cfg, y, c, f, 2);
    WholeCut(y, t);
    RunConcat(x, s, t);
    var z := Run(y, t);
    forall j | cfg.Has(j) ensures Sized(cfg, z, c) && !Between(cfg, z, c, j) {
      assert Stable(x, c, j);
      StableCells(x, z, c, j);
      NothingOwed(cfg, z, c, f, j);
    }
    AllSettled(cfg, z, c, f);
  }
}
