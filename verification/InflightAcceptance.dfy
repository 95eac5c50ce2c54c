/**
 * What reconciliation demands of a mapping, whoever wrote it: exactly these
 * conditions on its fields, slot by slot and queue by queue. Anything else is
 * refused before a single store.
 */
module InflightAcceptance {
  import opened Units
  import opened Sorting
  import opened InflightLayout
  import opened InflightRecovery
  import opened InflightReconcile
  import opened InflightSoundness

  // ----- one slot ------------------------------------------------------------

  /** The code a kind is stored as. */
  function CodeOf(kind: Kind): nat {
    match kind
    case Read => 1
    case Write => 2
    case Zero => 3
    case Flush => 4
    case Protocol => 5
    case Discard => 6
    case ZeroUnmap => 7
  }

  /** Kind codes: 1 read, 2 write, 3 zero, 4 flush, 5 protocol, 6 discard, 7 zero and unmap. */
  predicate RangeSound(c: Cell, imageBytes: nat) {
    if c.kind == 4 || c.kind == 5 then c.offset == 0 && c.length == 0
    else
      && 1 <= c.kind <= 7 && c.offset % 4096 == 0 && c.length % 4096 == 0 && c.offset + c.length <= imageBytes
      && (c.kind <= 2 ==> 0 < c.length <= 1048576)
  }

  /** A slot between admission and reuse carries its request's own numbers. */
  predicate EntrySound(m: Memory, c: Cell) {
    && 1 <= c.serial <= m.serial + 1 && c.serial <= 0xFFFF_FFFF_FFFF_FFFF
    && c.boundary <= m.mutation
    && c.mutation == (if c.flags == 0 && c.length > 0 && c.kind in {2, 3, 6, 7} then c.boundary + 1 else 0)
    && c.mutation <= 0xFFFF_FFFF_FFFF_FFFF
    && (c.state == 2 || c.inflight == 1 ==> c.counter == c.serial)
  }

  /** The guest may have been told that the slot's request succeeded. */
  predicate Reportable(m: Memory, c: Cell) {
    c.flags == 1 || (if c.kind == 1 || c.kind == 4 then c.boundary <= m.published else c.mutation <= m.published)
  }

  predicate SlotSound(cfg: Config, m: Memory, id: Id)
    requires id in m.cells && id.queue < |m.queues|
  {
    var c := m.cells[id];
    && c.state <= 3 && c.inflight <= 1 && c.flags <= 1 && c.reserved == 0
    && (c.state == 0 || c.state == 3 ==> c.inflight == 0)
    && (c.state != 0 ==>
          && m.queues[id.queue].version == 1
          && c.queue == id.queue && c.head == id.head && c.attachment == cfg.identity.attachment
          && RangeSound(c, cfg.imageBytes)
          && 1 <= c.discovery <= m.discovery + 1 && c.discovery <= 0xFFFF_FFFF_FFFF_FFFF
          && (c.state != 3 ==> EntrySound(m, c))
          && (c.state == 2 && c.inflight == 0 ==> Reportable(m, c)))
  }

  lemma {:induction false} ReadIs(cfg: Config, c: Cell, id: Id)
    ensures ReadSlot(cfg, c, id).Ok? ==> c.flags <= 1 && c.reserved == 0 && c.state <= 3
    ensures ReadSlot(cfg, c, id) == Ok(Vacant) <==> c.flags <= 1 && c.reserved == 0 && c.state == 0
    ensures ReadSlot(cfg, c, id).Ok? && c.state != 0 <==>
      && 1 <= c.state <= 3 && c.flags <= 1 && c.reserved == 0 && RangeSound(c, cfg.imageBytes)
      && c.queue == id.queue && c.head == id.head && c.attachment == cfg.identity.attachment && c.discovery != 0
      && (c.state != 3 ==>
            c.serial != 0 && c.mutation <= U64_MAX &&
            c.mutation == if c.flags == 0 && c.length > 0 && c.kind in {2, 3, 6, 7} then c.boundary + 1 else 0)
    ensures ReadSlot(cfg, c, id).Ok? && c.state != 0 ==>
      && ReadSlot(cfg, c, id).value.Occupied? && ReadSlot(cfg, c, id).value.state == c.state
      && var e := ReadSlot(cfg, c, id).value.entry;
         && e.request.Where() == id && e.discovery == c.discovery && e.request.available == c.available
         && e.request.offset == c.offset && e.request.length == c.length && c.kind == CodeOf(e.request.kind)
         && (c.state == 3 ==> e.serial == 0 && e.mutation == 0 && e.boundary == 0 && !e.rejected)
         && (c.state != 3 ==>
               && e.serial == c.serial && e.mutation == c.mutation && e.boundary == c.boundary
               && e.rejected == (c.flags == 1) && DecodeKind(c.kind) == Some(e.request.kind))
  {
  }

  lemma {:induction false} DueIs(e: Entry, kind: nat, p: nat)
    requires DecodeKind(kind) == Some(e.request.kind)
    ensures e.Required() <= p <==> e.rejected || if kind == 1 || kind == 4 then e.boundary <= p else e.mutation <= p
  {
  }

  lemma {:induction false} CellExactly(cfg: Config, m: Memory, id: Id)
    requires id in m.cells && id.queue < |m.queues|
    ensures CellOk(cfg, m, id) <==> SlotSound(cfg, m, id)
  {
    var c := m.cells[id];
    ReadIs(cfg, c, id);
    hide ReadSlot, RangeSound, DecodeKind;
    var reading := ReadSlot(cfg, c, id);
    if reading.Ok? && c.state != 0 && c.state != 3 {
      DueIs(reading.value.entry, c.kind, m.published);
    }
  }

  // ----- what the scan collects ----------------------------------------------

  ghost predicate Full(cfg: Config, m: Memory) { forall id | cfg.Has(id) :: id in m.cells }

  lemma {:induction false} RecordAt(cfg: Config, m: Memory, id: Id, r: Saved)
    requires id in m.cells
    ensures r in Record(cfg, m, id) ==> r.Where() == id && Record(cfg, m, id) == [r]
  {
    ReadIs(cfg, m.cells[id], id);
    hide ReadSlot;
  }

  lemma {:induction false} GatherHas(cfg: Config, m: Memory, q: nat, h: nat, r: Saved)
    requires Full(cfg, m) && h <= cfg.size && q <= cfg.queues && (q == cfg.queues ==> h == 0)
    ensures r in Gather(cfg, m, q, h) <==>
      cfg.Has(r.Where()) && Below(r.Where(), q, h) && r in Record(cfg, m, r.Where())
    decreases q, h
  {
    hide Record;
    if h > 0 {
      GatherHas(cfg, m, q, h - 1, r);
      RecordAt(cfg, m, Id(q, h - 1), r);
      assert Below(r.Where(), q, h) <==> Below(r.Where(), q, h - 1) || r.Where() == Id(q, h - 1);
    } else if q > 0 {
      GatherHas(cfg, m, q - 1, cfg.size, r);
    }
  }

  lemma {:induction false} GatherOnce(cfg: Config, m: Memory, q: nat, h: nat)
    requires Full(cfg, m) && h <= cfg.size && q <= cfg.queues && (q == cfg.queues ==> h == 0)
    ensures Apart(Gather(cfg, m, q, h), WhereOf())
    decreases q, h
  {
    hide Record, Apart, WhereOf;
    if h > 0 {
      var before, last := Gather(cfg, m, q, h - 1), Record(cfg, m, Id(q, h - 1));
      GatherOnce(cfg, m, q, h - 1);
      if last != [] { RecordAt(cfg, m, Id(q, h - 1), last[0]); }
      forall i | 0 <= i < |before| ensures before[i].Where() != Id(q, h - 1) {
        GatherHas(cfg, m, q, h - 1, before[i]);
      }
      AppendApart(before, last, Id(q, h - 1));
    } else if q > 0 {
      GatherOnce(cfg, m, q - 1, cfg.size);
    } else {
      NothingApart();
    }
  }

  lemma {:induction false} AllHas(cfg: Config, m: Memory, r: Saved)
    requires Full(cfg, m)
    ensures r in All(cfg, m) <==> cfg.Has(r.Where()) && r in Record(cfg, m, r.Where())
  {
    SortMember(Gather(cfg, m, cfg.queues, 0), SerialOf(), r);
    GatherHas(cfg, m, cfg.queues, 0, r);
  }

  lemma {:induction false} AllOnce(cfg: Config, m: Memory)
    requires Full(cfg, m)
    ensures Apart(All(cfg, m), WhereOf())
  {
    GatherOnce(cfg, m, cfg.queues, 0);
    SortApart(Gather(cfg, m, cfg.queues, 0), SerialOf(), WhereOf());
  }

  /** Every slot is sound, so each that is taken leaves exactly its own record. */
  ghost predicate Slots(cfg: Config, m: Memory) {
    Full(cfg, m) && |m.queues| == cfg.queues && forall id | cfg.Has(id) :: SlotSound(cfg, m, id)
  }

  predicate Taken(m: Memory, id: Id) { id in m.cells && m.cells[id].state != 0 }

  predicate Entered(m: Memory, id: Id) { id in m.cells && m.cells[id].state in {1, 2} }

  /** A slot's record, field by field. */
  ghost predicate Keeps(m: Memory, id: Id, r: Saved) {
    && Taken(m, id) && r.Where() == id
    && var c := m.cells[id];
       && r.state == c.state && r.inflight == (c.inflight == 1)
       && r.entry.discovery == c.discovery && r.entry.request.available == c.available
       && r.entry.request.offset == c.offset && r.entry.request.length == c.length
       && c.kind == CodeOf(r.entry.request.kind)
       && r.entry.serial == (if Entered(m, id) then c.serial else 0)
       && r.entry.mutation == (if Entered(m, id) then c.mutation else 0)
       && (Entered(m, id) ==> (r.entry.Required() <= m.published <==> Reportable(m, c)))
  }

  lemma {:induction false} RecordKeeps(cfg: Config, m: Memory, id: Id)
    requires Slots(cfg, m) && cfg.Has(id)
    ensures !Taken(m, id) ==> Record(cfg, m, id) == []
    ensures Taken(m, id) ==> |Record(cfg, m, id)| == 1 && Keeps(m, id, Record(cfg, m, id)[0])
  {
    assert SlotSound(cfg, m, id);
    var c := m.cells[id];
    ReadIs(cfg, c, id);
    hide ReadSlot, RangeSound, DecodeKind, Slots;
    var reading := ReadSlot(cfg, c, id);
    if Entered(m, id) {
      DueIs(reading.value.entry, c.kind, m.published);
    }
  }

  /** So the records are one for each slot taken. */
  lemma {:induction false} AllKeeps(cfg: Config, m: Memory)
    requires Slots(cfg, m)
    ensures var s := All(cfg, m);
      && (forall i | 0 <= i < |s| :: cfg.Has(s[i].Where()) && Keeps(m, s[i].Where(), s[i]))
      && (forall i, j | 0 <= i < j < |s| :: s[i].Where() != s[j].Where())
      && (forall id | cfg.Has(id) && Taken(m, id) :: exists i | 0 <= i < |s| :: s[i].Where() == id)
  {
    var s := All(cfg, m);
    AllOnce(cfg, m);
    hide All, Record, Keeps, SlotSound;
    forall i | 0 <= i < |s| ensures cfg.Has(s[i].Where()) && Keeps(m, s[i].Where(), s[i]) {
      AllHas(cfg, m, s[i]);
      RecordAt(cfg, m, s[i].Where(), s[i]);
      RecordKeeps(cfg, m, s[i].Where());
    }
    forall i, j | 0 <= i < j < |s| ensures s[i].Where() != s[j].Where() {
      assert WhereOf()(s[i]) != WhereOf()(s[j]);
    }
    forall id | cfg.Has(id) && Taken(m, id) ensures exists i | 0 <= i < |s| :: s[i].Where() == id {
      RecordKeeps(cfg, m, id);
      var r := Record(cfg, m, id)[0];
      RecordAt(cfg, m, id, r);
      AllHas(cfg, m, r);
      var i :| 0 <= i < |s| && s[i] == r;
    }
  }

  // ----- numbers -------------------------------------------------------------

  /** No two slots share a discovery, a serial or a mutation number. */
  ghost predicate Separate(cfg: Config, m: Memory) {
    forall i, j | cfg.Has(i) && cfg.Has(j) && i != j && Taken(m, i) && Taken(m, j) ::
      && m.cells[i].discovery != m.cells[j].discovery
      && (Entered(m, i) && Entered(m, j) ==>
            && m.cells[i].serial != m.cells[j].serial
            && (m.cells[i].mutation == m.cells[j].mutation ==> m.cells[i].mutation == 0))
  }

  lemma {:induction false} SlotNumbers(cfg: Config, m: Memory, id: Id)
    requires Slots(cfg, m) && cfg.Has(id) && Taken(m, id)
    ensures m.cells[id].discovery > 0 && (Entered(m, id) ==> m.cells[id].serial > 0)
  {
    assert SlotSound(cfg, m, id);
  }

  lemma {:induction false} DistinctExactly(cfg: Config, m: Memory)
    requires Slots(cfg, m)
    ensures Distinct(All(cfg, m)) <==> Separate(cfg, m)
  {
    AllKeeps(cfg, m);
    var s := All(cfg, m);
    hide All, SlotSound;
    if Distinct(s) {
      forall i, j | cfg.Has(i) && cfg.Has(j) && i != j && Taken(m, i) && Taken(m, j)
        ensures m.cells[i].discovery != m.cells[j].discovery
        ensures Entered(m, i) && Entered(m, j) ==>
          && m.cells[i].serial != m.cells[j].serial
          && (m.cells[i].mutation == m.cells[j].mutation ==> m.cells[i].mutation == 0)
      {
        var x :| 0 <= x < |s| && s[x].Where() == i;
        var y :| 0 <= y < |s| && s[y].Where() == j;
        SlotNumbers(cfg, m, i);
        SlotNumbers(cfg, m, j);
        if x < y { assert x < y; } else { assert y < x; }
      }
    }
    if Separate(cfg, m) {
      forall x, y | 0 <= x < y < |s|
        ensures s[x].entry.serial == s[y].entry.serial ==> s[x].entry.serial == 0
        ensures s[x].entry.discovery == s[y].entry.discovery ==> s[x].entry.discovery == 0
        ensures s[x].entry.mutation == s[y].entry.mutation ==> s[x].entry.mutation == 0
      {
        assert s[x].Where() != s[y].Where();
      }
    }
  }

  // ----- the guest's used indices --------------------------------------------

  /** Level with the saved cursor, or one ahead by the head named last, whose answer is due. */
  predicate GuestSound(cfg: Config, m: Memory, q: nat, guest: Option<u16>)
    requires q < |m.queues|
  {
    var s := m.queues[q];
    if s.version == 0 then guest == None
    else
      && guest.Some?
      && (guest.value == s.used ||
          (guest.value == (s.used + 1) % 0x1_0000 && Id(q, s.lastHead) in m.cells &&
           m.cells[Id(q, s.lastHead)].state == 2 && Reportable(m, m.cells[Id(q, s.lastHead)])))
  }

  lemma {:induction false} HeadFound(saved: seq<Saved>, id: Id)
    ensures match AtHead(saved, id)
      case None => forall i | 0 <= i < |saved| :: saved[i].Where() != id
      case Some(r) => r in saved && r.Where() == id
    decreases |saved|
  {
    if saved != [] && saved[0].Where() != id {
      HeadFound(saved[1..], id);
      forall i | 0 <= i < |saved| && AtHead(saved, id).None? ensures saved[i].Where() != id {
        if i > 0 { assert saved[i] == saved[1..][i - 1]; }
      }
    }
  }

  lemma {:induction false} HeadKeeps(cfg: Config, m: Memory, id: Id)
    requires Slots(cfg, m) && cfg.Has(id)
    ensures id in m.cells
    ensures AtHead(All(cfg, m), id).None? <==> !Taken(m, id)
    ensures AtHead(All(cfg, m), id).Some? ==> Keeps(m, id, AtHead(All(cfg, m), id).value)
  {
    AllKeeps(cfg, m);
    var s := All(cfg, m);
    HeadFound(s, id);
    hide All, SlotSound, AtHead, Keeps;
    if AtHead(s, id).Some? {
      var i :| 0 <= i < |s| && s[i] == AtHead(s, id).value;
      assert Keeps(m, s[i].Where(), s[i]);
      KeptTaken(m, id, s[i]);
    }
  }

  lemma {:induction false} KeptTaken(m: Memory, id: Id, r: Saved)
    requires Keeps(m, id, r)
    ensures Taken(m, id)
  {
  }

  lemma {:induction false} OneAhead(guest: u16, used: u16)
    ensures Sub16(guest, used) == 0 <==> guest == used
    ensures Sub16(guest, used) == 1 <==> guest == (used + 1) % 0x1_0000
  {
  }

  lemma {:induction false} InterruptedExactly(cfg: Config, m: Memory, q: nat, guest: Option<u16>)
    requires Slots(cfg, m) && q < cfg.queues == |m.queues|
    requires m.queues[q].version <= 1 && m.queues[q].lastHead < cfg.size
    ensures Interrupted(m, All(cfg, m), q, guest).Ok? <==> GuestSound(cfg, m, q, guest)
  {
    hide Slots, All, AtHead, Reportable, Sub16;
    HeadKeeps(cfg, m, Id(q, m.queues[q].lastHead));
    if guest.Some? { OneAhead(guest.value, m.queues[q].used); }
  }

  lemma {:induction false} CompletedOk(m: Memory, saved: seq<Saved>, guest: seq<Option<u16>>, n: nat)
    requires n <= |m.queues| && n <= |guest|
    ensures Completed(m, saved, guest, n).Ok? <==>
      forall q | 0 <= q < n :: Interrupted(m, saved, q, guest[q]).Ok?
    decreases n
  {
    hide Interrupted;
    if n > 0 { CompletedOk(m, saved, guest, n - 1); }
  }

  // ----- the newest discovery ------------------------------------------------

  /** The last descriptor taken is at or just behind its queue's saved cursor. */
  ghost predicate NewestSound(cfg: Config, m: Memory)
    requires |m.queues| == cfg.queues
  {
    forall id | cfg.Has(id) && Taken(m, id) && IsNewest(cfg, m, id) ::
      var cursor := m.queues[id.queue].available;
      cursor == m.cells[id].available || cursor == (m.cells[id].available + 1) % 0x1_0000
  }

  ghost predicate IsNewest(cfg: Config, m: Memory, id: Id)
    requires Taken(m, id)
  {
    m.cells[id].discovery >= m.discovery &&
    forall j | cfg.Has(j) && Taken(m, j) :: m.cells[j].discovery <= m.cells[id].discovery
  }

  lemma {:induction false} NewestKeeps(cfg: Config, m: Memory)
    requires Slots(cfg, m)
    ensures All(cfg, m) == [] ==> forall id | cfg.Has(id) :: !Taken(m, id)
    ensures All(cfg, m) != [] ==>
      && Newest(All(cfg, m)).Some?
      && var r := Newest(All(cfg, m)).value;
         && cfg.Has(r.Where()) && Keeps(m, r.Where(), r)
         && forall j | cfg.Has(j) && Taken(m, j) :: m.cells[j].discovery <= r.entry.discovery
    ensures All(cfg, m) == [] ==> Newest(All(cfg, m)).None?
  {
    AllKeeps(cfg, m);
    var s := All(cfg, m);
    NewestMax(s);
    hide All, SlotSound, Newest, Keeps;
    if s != [] {
      var b :| 0 <= b < |s| && s[b] == Newest(s).value;
      forall j | cfg.Has(j) && Taken(m, j) ensures m.cells[j].discovery <= Newest(s).value.entry.discovery {
        var i :| 0 <= i < |s| && s[i].Where() == j;
        assert Keeps(m, s[i].Where(), s[i]);
        KeptDiscovery(m, j, s[i]);
      }
    }
  }

  lemma {:induction false} KeptDiscovery(m: Memory, id: Id, r: Saved)
    requires Keeps(m, id, r)
    ensures id in m.cells && m.cells[id].discovery == r.entry.discovery
  {
  }

  lemma {:induction false} CursorExactly(cfg: Config, m: Memory)
    requires Slots(cfg, m) && Separate(cfg, m)
    ensures CursorOk(m, Latest(m, All(cfg, m))) <==> NewestSound(cfg, m)
  {
    NewestKeeps(cfg, m);
    var s := All(cfg, m);
    hide All, SlotSound, Newest;
    if s != [] {
      NewestOne(cfg, m, Newest(s).value.Where());
    }
    hide Separate;
  }

  /** Discoveries differ, so no other slot is the newest. */
  lemma {:induction false} NewestOne(cfg: Config, m: Memory, at: Id)
    requires Separate(cfg, m) && cfg.Has(at) && Taken(m, at)
    requires forall j | cfg.Has(j) && Taken(m, j) :: m.cells[j].discovery <= m.cells[at].discovery
    ensures forall j | cfg.Has(j) && Taken(m, j) && IsNewest(cfg, m, j) :: j == at
    ensures m.cells[at].discovery >= m.discovery <==> IsNewest(cfg, m, at)
    ensures m.cells[at].discovery < m.discovery ==> forall j | cfg.Has(j) && Taken(m, j) :: !IsNewest(cfg, m, j)
  {
    forall j | cfg.Has(j) && Taken(m, j) && IsNewest(cfg, m, j) ensures j == at {
      assert m.cells[at].discovery <= m.cells[j].discovery;
    }
  }

  // ----- all of it -----------------------------------------------------------

  predicate QueueSound(cfg: Config, s: Queue) {
    && s.version <= 1 && s.features == 0 && s.lastHead < cfg.size && s.available <= 0xFFFF
    && (s.descriptors == cfg.size || (s.version == 0 && s.descriptors == 0))
  }

  /** The whole mapping, with the used indices the guest shows. */
  ghost predicate Sound(cfg: Config, m: Memory, guest: seq<Option<u16>>)
    requires |m.queues| == cfg.queues
  {
    && m.identity == cfg.identity && m.failed == 0 && m.published <= m.mutation
    && (forall q | 0 <= q < cfg.queues :: QueueSound(cfg, m.queues[q]))
    && Slots(cfg, m) && Separate(cfg, m)
    && |guest| == cfg.queues && (forall q | 0 <= q < cfg.queues :: GuestSound(cfg, m, q, guest[q]))
    && NewestSound(cfg, m)
  }

  lemma {:induction false} ScanExactly(cfg: Config, m: Memory)
    requires Full(cfg, m) && |m.queues| == cfg.queues
    ensures HeaderOk(cfg, m) && ScanOk(cfg, m) <==>
      && m.identity == cfg.identity && m.failed == 0 && m.published <= m.mutation
      && (forall q | 0 <= q < cfg.queues :: QueueSound(cfg, m.queues[q]))
      && Slots(cfg, m) && Separate(cfg, m)
  {
    forall id | cfg.Has(id) ensures CellOk(cfg, m, id) <==> SlotSound(cfg, m, id) {
      CellExactly(cfg, m, id);
    }
    hide CellOk, SlotSound, All, Distinct, Separate;
    if Slots(cfg, m) { DistinctExactly(cfg, m); }
    assert forall q | 0 <= q < cfg.queues :: QueueOk(cfg, m.queues[q]) == QueueSound(cfg, m.queues[q]);
  }

  /** Reconciliation accepts a mapping if and only if it is sound, whatever wrote it. */
  lemma {:induction false} AcceptsExactly(cfg: Config, m: Memory, guest: seq<Option<u16>>)
    requires Full(cfg, m) && |m.queues| == cfg.queues
    ensures Reconcile(cfg, m, guest).Ok? <==> Sound(cfg, m, guest)
  {
    hide HeaderOk, ScanOk, Slots, Separate, All, GuestSound, Interrupted, Completed, Latest, CursorOk, NewestSound,
      FinishAll, RepairStores, CursorStores, Entries, Waiting, Sort, HighestSerial, HighestMutation;
    ScanExactly(cfg, m);
    if HeaderOk(cfg, m) && ScanOk(cfg, m) && |guest| == cfg.queues {
      CompletedOk(m, All(cfg, m), guest, cfg.queues);
      forall q | 0 <= q < cfg.queues
        ensures Interrupted(m, All(cfg, m), q, guest[q]).Ok? <==> GuestSound(cfg, m, q, guest[q])
      {
        InterruptedExactly(cfg, m, q, guest[q]);
      }
      CursorExactly(cfg, m);
    }
  }
}
