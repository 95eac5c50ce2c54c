/**
 * Reconciliation is sound at every crash cut: it accepts the mapping, every
 * store of its own repair leaves a mapping it would accept again, and what it
 * replays is exactly what was admitted and not yet seen by the guest.
 */
module InflightReconcile {
  import opened Units
  import opened Sorting
  import opened InflightLayout
  import opened InflightModel
  import opened InflightRefinement
  import opened InflightOperations
  import opened InflightRecovery

  // ----- what the scan collects ----------------------------------------------

  function EntryOf(cfg: Config, o: Owner): Entry
    requires !o.Free?
  {
    if o.Found? then Entry(o.request, 0, 0, 0, cfg.identity.attachment, false, o.discovery) else o.entry
  }

  /** The record a head's owner leaves in the mapping. */
  ghost predicate Fits(cfg: Config, w: World, a: Model, r: Saved) {
    && r.Where() in w.m.cells && r.Where() in a.owner
    && var o := a.owner[r.Where()]; var c := w.m.cells[r.Where()];
       && !o.Free? && r.entry == EntryOf(cfg, o) && r.state == c.state && r.inflight == (c.inflight == 1)
  }

  ghost function RecordOf(cfg: Config, w: World, a: Model, id: Id): Saved
    requires id in w.m.cells && id in a.owner && !a.owner[id].Free?
  {
    Saved(w.m.cells[id].state, EntryOf(cfg, a.owner[id]), w.m.cells[id].inflight == 1)
  }

  lemma {:induction false} RecordIs(cfg: Config, w: World, a: Model, id: Id)
    requires ModelInv(cfg, a) && Matches(cfg, w, a) && cfg.Has(id)
    ensures Record(cfg, w.m, id) == if a.owner[id].Free? then [] else [RecordOf(cfg, w, a, id)]
    ensures !a.owner[id].Free? ==> RecordOf(cfg, w, a, id).Where() == id
  {
    ReadFound(cfg, w, a, id);
    assert CellRef(cfg, w, a, id);
    assert OwnerOk(cfg, a, id, a.owner[id]);
  }

  lemma {:induction false} RecordMember(cfg: Config, w: World, a: Model, id: Id, r: Saved)
    requires ModelInv(cfg, a) && Matches(cfg, w, a) && cfg.Has(id)
    ensures r in Record(cfg, w.m, id) <==> r.Where() == id && Fits(cfg, w, a, r)
  {
    RecordIs(cfg, w, a, id);
  }

  predicate Below(id: Id, q: nat, h: nat) { id.queue < q || (id.queue == q && id.head < h) }

  lemma {:induction false} Shape(cfg: Config, w: World, a: Model)
    requires Matches(cfg, w, a)
    ensures Sized(cfg, w, a)
  {
  }

  lemma {:induction false} GatherMember(cfg: Config, w: World, a: Model, q: nat, h: nat, r: Saved)
    requires ModelInv(cfg, a) && Matches(cfg, w, a)
    requires h <= cfg.size && q <= cfg.queues && (q == cfg.queues ==> h == 0)
    ensures r in Gather(cfg, w.m, q, h) <==> cfg.Has(r.Where()) && Below(r.Where(), q, h) && Fits(cfg, w, a, r)
    decreases q, h
  {
    hide ModelInv, Matches, Record, Fits;
    Shape(cfg, w, a);
    if h > 0 {
      GatherMember(cfg, w, a, q, h - 1, r);
      RecordMember(cfg, w, a, Id(q, h - 1), r);
    } else if q > 0 {
      GatherMember(cfg, w, a, q - 1, cfg.size, r);
    }
  }

  function WhereOf(): Saved -> Id { (r: Saved) => r.Where() }

  lemma {:induction false} GatherApart(cfg: Config, w: World, a: Model, q: nat, h: nat)
    requires ModelInv(cfg, a) && Matches(cfg, w, a)
    requires h <= cfg.size && q <= cfg.queues && (q == cfg.queues ==> h == 0)
    ensures Apart(Gather(cfg, w.m, q, h), WhereOf())
    decreases q, h
  {
    hide ModelInv, Matches, Record, Fits, Apart, WhereOf;
    Shape(cfg, w, a);
    if h > 0 {
      var before := Gather(cfg, w.m, q, h - 1);
      var last := Record(cfg, w.m, Id(q, h - 1));
      GatherApart(cfg, w, a, q, h - 1);
      if last != [] {
        RecordMember(cfg, w, a, Id(q, h - 1), last[0]);
      }
      forall i | 0 <= i < |before| ensures before[i].Where() != Id(q, h - 1) {
        GatherMember(cfg, w, a, q, h - 1, before[i]);
      }
      AppendApart(before, last, Id(q, h - 1));
    } else if q > 0 {
      GatherApart(cfg, w, a, q - 1, cfg.size);
    } else {
      NothingApart();
    }
  }

  lemma {:induction false} NothingApart()
    ensures Apart([], WhereOf())
  {
  }

  lemma {:induction false} AppendApart(before: seq<Saved>, last: seq<Saved>, id: Id)
    requires Apart(before, WhereOf()) && |last| <= 1
    requires forall i | 0 <= i < |before| :: before[i].Where() != id
    requires last != [] ==> last[0].Where() == id
    ensures Apart(before + last, WhereOf())
  {
    var s := before + last;
    forall i, j | 0 <= i < j < |s| ensures WhereOf()(s[i]) != WhereOf()(s[j]) {
      if j < |before| {
        assert WhereOf()(before[i]) != WhereOf()(before[j]);
      }
    }
  }

  lemma {:induction false} AllMember(cfg: Config, w: World, a: Model, r: Saved)
    requires ModelInv(cfg, a) && Matches(cfg, w, a)
    ensures r in All(cfg, w.m) <==> cfg.Has(r.Where()) && Fits(cfg, w, a, r)
  {
    SortMember(Gather(cfg, w.m, cfg.queues, 0), SerialOf(), r);
    GatherMember(cfg, w, a, cfg.queues, 0, r);
  }

  lemma {:induction false} AllApart(cfg: Config, w: World, a: Model)
    requires ModelInv(cfg, a) && Matches(cfg, w, a)
    ensures Apart(All(cfg, w.m), WhereOf()) && Ascending(All(cfg, w.m), SerialOf())
  {
    GatherApart(cfg, w, a, cfg.queues, 0);
    SortApart(Gather(cfg, w.m, cfg.queues, 0), SerialOf(), WhereOf());
    SortAscending(Gather(cfg, w.m, cfg.queues, 0), SerialOf());
  }

  // ----- the scan accepts ----------------------------------------------------

  lemma {:induction false} CellAccepted(cfg: Config, w: World, a: Model, id: Id)
    requires ModelInv(cfg, a) && Matches(cfg, w, a) && cfg.Has(id) && !a.failed
    ensures CellOk(cfg, w.m, id)
  {
    ReadFound(cfg, w, a, id);
    if !a.owner[id].Free? {
      CellBounds(cfg, w, a, id);
      assert OwnerOk(cfg, a, id, a.owner[id]);
    }
    assert CellRef(cfg, w, a, id);
  }

  lemma {:induction false} CellBounds(cfg: Config, w: World, a: Model, id: Id)
    requires ModelInv(cfg, a) && Matches(cfg, w, a) && cfg.Has(id) && !a.owner[id].Free?
    ensures w.m.queues[id.queue].version == 1
    ensures DiscoveryOf(a.owner[id]) <= Above(w.m.discovery)
    ensures HasEntry(a.owner[id]) ==>
              a.owner[id].entry.serial <= Above(w.m.serial) && a.owner[id].entry.mutation <= Above(w.m.mutation)
  {
    assert OwnerOk(cfg, a, id, a.owner[id]);
    assert QueueRef(cfg, w, a, id.queue);
  }

  /** Two heads never share a serial, a discovery or a mutation number. */
  lemma {:induction false} OwnersDistinct(cfg: Config, a: Model, i: Id, j: Id)
    requires ModelInv(cfg, a) && cfg.Has(i) && cfg.Has(j) && i != j
    requires !a.owner[i].Free? && !a.owner[j].Free?
    ensures DiscoveryOf(a.owner[i]) != DiscoveryOf(a.owner[j])
    ensures HasEntry(a.owner[i]) && HasEntry(a.owner[j]) ==>
              && a.owner[i].entry.serial != a.owner[j].entry.serial
              && (a.owner[i].entry.mutation == a.owner[j].entry.mutation ==> a.owner[i].entry.mutation == 0)
  {
    assert OwnerOk(cfg, a, i, a.owner[i]);
    assert OwnerOk(cfg, a, j, a.owner[j]);
    if HasEntry(a.owner[i]) && HasEntry(a.owner[j]) {
      var x, y := a.owner[i].entry, a.owner[j].entry;
      assert NumberedAt(a.history, a.start, x.serial - 1);
      assert NumberedAt(a.history, a.start, y.serial - 1);
    }
  }

  lemma {:induction false} DistinctAccepted(cfg: Config, w: World, a: Model)
    requires ModelInv(cfg, a) && Matches(cfg, w, a)
    ensures Distinct(All(cfg, w.m))
    ensures forall i, j | 0 <= i < j < |All(cfg, w.m)| ::
      All(cfg, w.m)[i].entry.discovery != All(cfg, w.m)[j].entry.discovery
  {
    var s := All(cfg, w.m);
    AllApart(cfg, w, a);
    forall i, j | 0 <= i < j < |s|
      ensures s[i].entry.discovery != s[j].entry.discovery
      ensures s[i].entry.serial == s[j].entry.serial ==> s[i].entry.serial == 0
      ensures s[i].entry.mutation == s[j].entry.mutation ==> s[i].entry.mutation == 0
    {
      PairDistinct(cfg, w, a, s, i, j);
    }
  }

  lemma {:induction false} PairDistinct(cfg: Config, w: World, a: Model, s: seq<Saved>, i: nat, j: nat)
    requires ModelInv(cfg, a) && Matches(cfg, w, a) && s == All(cfg, w.m) && Apart(s, WhereOf()) && i < j < |s|
    ensures s[i].entry.discovery != s[j].entry.discovery
    ensures s[i].entry.serial == s[j].entry.serial ==> s[i].entry.serial == 0
    ensures s[i].entry.mutation == s[j].entry.mutation ==> s[i].entry.mutation == 0
  {
    hide ModelInv, Matches, All;
    AllMember(cfg, w, a, s[i]);
    AllMember(cfg, w, a, s[j]);
    assert WhereOf()(s[i]) != WhereOf()(s[j]);
    OwnersDistinct(cfg, a, s[i].Where(), s[j].Where());
    SerialPositive(cfg, a, s[i].Where());
    SerialPositive(cfg, a, s[j].Where());
  }

  lemma {:induction false} SerialPositive(cfg: Config, a: Model, id: Id)
    requires ModelInv(cfg, a) && cfg.Has(id)
    ensures id in a.owner && (HasEntry(a.owner[id]) ==> a.owner[id].entry.serial > 0)
  {
    assert OwnerOk(cfg, a, id, a.owner[id]);
  }

  lemma {:induction false} ScanAccepted(cfg: Config, w: World, a: Model)
    requires ModelInv(cfg, a) && Matches(cfg, w, a) && !a.failed
    ensures HeaderOk(cfg, w.m) && ScanOk(cfg, w.m)
  {
    forall id | cfg.Has(id) ensures CellOk(cfg, w.m, id) {
      CellAccepted(cfg, w, a, id);
    }
    DistinctAccepted(cfg, w, a);
    forall q | 0 <= q < cfg.queues ensures QueueOk(cfg, w.m.queues[q]) {
      assert QueueRef(cfg, w, a, q);
    }
  }

  // ----- the completion the guest saw first ----------------------------------

  lemma {:induction false} HeadLookup(saved: seq<Saved>, r: Saved)
    requires r in saved && Apart(saved, WhereOf())
    ensures AtHead(saved, r.Where()) == Some(r)
    decreases |saved|
  {
    if saved[0] == r {
    } else {
      var i :| 0 <= i < |saved| && saved[i] == r;
      assert WhereOf()(saved[0]) != WhereOf()(saved[i]);
      assert saved[1..][i - 1] == r;
      forall x, y | 0 <= x < y < |saved[1..]| ensures WhereOf()(saved[1..][x]) != WhereOf()(saved[1..][y]) {
        assert WhereOf()(saved[x + 1]) != WhereOf()(saved[y + 1]);
      }
      HeadLookup(saved[1..], r);
    }
  }

  predicate Lags(w: World, q: nat)
    requires q < |w.m.queues| && q < |w.guest|
  {
    w.m.queues[q].version == 1 && w.guest[q] != w.m.queues[q].used
  }

  lemma {:induction false} LagIsRetiring(cfg: Config, w: World, a: Model, q: nat)
    requires ModelInv(cfg, a) && Matches(cfg, w, a) && !a.failed && q < cfg.queues
    ensures w.m.queues[q].version == if a.cursors[q].live then 1 else 0
    ensures a.cursors[q].live ==> w.guest[q] == a.cursors[q].used
    ensures Lags(w, q) ==>
      var id := Id(q, w.m.queues[q].lastHead);
      && cfg.Has(id) && a.owner[id].Retiring? && w.m.cells[id].state == ACTIVE
      && Sub16(w.guest[q], w.m.queues[q].used) == 1
      && a.owner[id].entry.Required() <= w.m.published
      && a.owner[id].entry.request.Where() == id
  {
    assert QueueRef(cfg, w, a, q);
    if Lags(w, q) {
      var id := Id(q, w.m.queues[q].lastHead);
      assert CellRef(cfg, w, a, id);
      assert OwnerOk(cfg, a, id, a.owner[id]);
    }
  }

  ghost function LateOn(w: World, a: Model, q: nat): seq<(Entry, u16)>
    requires q < |w.m.queues| && q < |w.guest|
  {
    var id := Id(q, w.m.queues[q].lastHead);
    if Lags(w, q) && id in a.owner && a.owner[id].Retiring? then [(a.owner[id].entry, w.guest[q])] else []
  }

  ghost function Late(w: World, a: Model, n: nat): seq<(Entry, u16)>
    requires n <= |w.m.queues| && n <= |w.guest|
  {
    if n == 0 then [] else Late(w, a, n - 1) + LateOn(w, a, n - 1)
  }

  lemma {:induction false} InterruptedIs(cfg: Config, w: World, a: Model, q: nat)
    requires ModelInv(cfg, a) && Matches(cfg, w, a) && !a.failed && q < cfg.queues
    ensures Interrupted(w.m, All(cfg, w.m), q, GuestView(w)[q]) ==
              if LateOn(w, a, q) == [] then Ok(None) else Ok(Some(LateOn(w, a, q)[0]))
  {
    assert Sized(cfg, w, a);
    hide ModelInv, Matches, All;
    LagIsRetiring(cfg, w, a, q);
    if Lags(w, q) {
      LagRecord(cfg, w, a, q);
    }
  }

  lemma {:induction false} LagRecord(cfg: Config, w: World, a: Model, q: nat)
    requires ModelInv(cfg, a) && Matches(cfg, w, a) && !a.failed && q < cfg.queues && Lags(w, q)
    requires var id := Id(q, w.m.queues[q].lastHead);
      cfg.Has(id) && a.owner[id].Retiring? && a.owner[id].entry.request.Where() == id
    ensures var id := Id(q, w.m.queues[q].lastHead);
      AtHead(All(cfg, w.m), id) == Some(RecordOf(cfg, w, a, id))
  {
    hide ModelInv, Matches, All, Apart;
    Shape(cfg, w, a);
    var id := Id(q, w.m.queues[q].lastHead);
    var r := RecordOf(cfg, w, a, id);
    AllMember(cfg, w, a, r);
    AllApart(cfg, w, a);
    HeadLookup(All(cfg, w.m), r);
  }

  lemma {:induction false} CompletedIs(cfg: Config, w: World, a: Model, n: nat)
    requires ModelInv(cfg, a) && Matches(cfg, w, a) && !a.failed && n <= cfg.queues
    ensures |GuestView(w)| == cfg.queues
    ensures Completed(w.m, All(cfg, w.m), GuestView(w), n) == Ok(Late(w, a, n))
    decreases n
  {
    hide ModelInv, Matches, All, LateOn, Interrupted, GuestView, Completed;
    Shape(cfg, w, a);
    ViewSize(w);
    if n > 0 {
      CompletedIs(cfg, w, a, n - 1);
      InterruptedIs(cfg, w, a, n - 1);
      LateOnSize(w, a, n - 1);
      CompletedStep(w.m, All(cfg, w.m), GuestView(w), n, Late(w, a, n - 1), LateOn(w, a, n - 1));
    } else {
      CompletedNone(w.m, All(cfg, w.m), GuestView(w));
    }
  }

  lemma {:induction false} ViewSize(w: World)
    requires |w.guest| == |w.m.queues|
    ensures |GuestView(w)| == |w.guest|
  {
  }

  lemma {:induction false} CompletedNone(m: Memory, saved: seq<Saved>, guest: seq<Option<u16>>)
    ensures Completed(m, saved, guest, 0) == Ok([])
  {
  }

  lemma {:induction false} CompletedStep(m: Memory, saved: seq<Saved>, guest: seq<Option<u16>>, n: nat,
      done: seq<(Entry, u16)>, late: seq<(Entry, u16)>)
    requires 0 < n <= |m.queues| && n <= |guest| && |late| <= 1
    requires Completed(m, saved, guest, n - 1) == Ok(done)
    requires Interrupted(m, saved, n - 1, guest[n - 1]) == if late == [] then Ok(None) else Ok(Some(late[0]))
    ensures Completed(m, saved, guest, n) == Ok(done + late)
  {
    hide Interrupted;
    if late != [] {
      assert late == [late[0]];
    } else {
      assert done + late == done;
    }
  }

  lemma {:induction false} LateOnSize(w: World, a: Model, q: nat)
    requires q < |w.m.queues| && q < |w.guest|
    ensures |LateOn(w, a, q)| <= 1
  {
  }

  lemma {:induction false} LateOnIs(w: World, a: Model, q: nat)
    requires q < |w.m.queues| && q < |w.guest|
    ensures var id := Id(q, w.m.queues[q].lastHead);
      && (LateOn(w, a, q) == [] ==> !(Lags(w, q) && id in a.owner && a.owner[id].Retiring?))
      && (LateOn(w, a, q) != [] ==>
           Lags(w, q) && id in a.owner && a.owner[id].Retiring? && LateOn(w, a, q) == [(a.owner[id].entry, w.guest[q])])
  {
  }

  lemma {:induction false} LagsLive(w: World, q: nat)
    requires q < |w.m.queues| && q < |w.guest| && Lags(w, q)
    ensures w.m.queues[q].version == 1
  {
  }

  lemma {:induction false} OneRetires(cfg: Config, a: Model)
    requires ModelInv(cfg, a)
    ensures forall i, j | i in a.owner && j in a.owner && a.owner[i].Retiring? && a.owner[j].Retiring? :: i == j
  {
  }

  /** At most one completion is unfinished, and it is the retiring head's. */
  lemma {:induction false} LateFacts(cfg: Config, w: World, a: Model, n: nat)
    requires ModelInv(cfg, a) && Matches(cfg, w, a) && !a.failed && n <= cfg.queues
    ensures |Late(w, a, n)| <= 1
    ensures Late(w, a, n) == [] ==> forall q | 0 <= q < n :: !Lags(w, q)
    ensures |Late(w, a, n)| == 1 ==>
      var e := Late(w, a, n)[0].0; var id := e.request.Where();
      && cfg.Has(id) && id.queue < n && a.owner[id] == Retiring(e)
      && Lags(w, id.queue) && Late(w, a, n)[0].1 == a.cursors[id.queue].used
    decreases n
  {
    hide ModelInv, Matches, Lags, LateOn;
    Shape(cfg, w, a);
    OneRetires(cfg, a);
    if n > 0 {
      LateFacts(cfg, w, a, n - 1);
      LagIsRetiring(cfg, w, a, n - 1);
      LateOnIs(w, a, n - 1);
      if Lags(w, n - 1) { LagsLive(w, n - 1); }
    }
  }
}
