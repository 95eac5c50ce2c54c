/** The loops of the recovery scan, each shown to compute its specification. */
module InflightScan {
  import opened Units
  import opened Sorting
  import opened InflightLayout
  import opened InflightRecovery

  /** Every queue and head in turn, then the three searches for repeated numbers. */
  method Scan(cfg: Config, m: Memory) returns (res: Result<seq<Saved>, string>)
    requires forall id | cfg.Has(id) :: id in m.cells
    requires |m.queues| == cfg.queues
    ensures res.Ok? <==> ScanOk(cfg, m)
    ensures res.Ok? ==> res.value == All(cfg, m)
  {
    hide CellOk, QueueOk, Record, Distinct, Sort, Ascending;
    var saved: seq<Saved> := [];
    var q := 0;
    while q < cfg.queues
      invariant q <= cfg.queues && saved == Gather(cfg, m, q, 0)
      invariant forall p | 0 <= p < q :: QueueOk(cfg, m.queues[p])
      invariant forall id | cfg.Has(id) && id.queue < q :: CellOk(cfg, m, id)
    {
      if !QueueOk(cfg, m.queues[q]) { return Err("invalid standard inflight queue header"); }
      var bad, row := ScanQueue(cfg, m, q, saved);
      if bad { return Err("inflight slot or descriptor differs"); }
      saved := row;
      q := q + 1;
    }
    SortAscending(saved, SerialOf());
    saved := Sort(saved, SerialOf());
    var clash := Clashes(saved);
    if clash { return Err("duplicate inflight operation serial, discovery or mutation"); }
    res := Ok(saved);
  }

  method ScanQueue(cfg: Config, m: Memory, q: nat, before: seq<Saved>) returns (bad: bool, saved: seq<Saved>)
    requires forall id | cfg.Has(id) :: id in m.cells
    requires |m.queues| == cfg.queues && q < cfg.queues && before == Gather(cfg, m, q, 0)
    ensures bad <==> exists h | 0 <= h < cfg.size :: !CellOk(cfg, m, Id(q, h))
    ensures !bad ==> saved == Gather(cfg, m, q + 1, 0)
    ensures !bad ==> forall id | cfg.Has(id) && id.queue == q :: CellOk(cfg, m, id)
  {
    hide ReadSlot, CellOk;
    saved := before;
    var h := 0;
    while h < cfg.size
      invariant h <= cfg.size && saved == Gather(cfg, m, q, h)
      invariant forall i | 0 <= i < h :: CellOk(cfg, m, Id(q, i))
    {
      if !CellOk(cfg, m, Id(q, h)) { return true, []; }
      saved := saved + Record(cfg, m, Id(q, h));
      h := h + 1;
    }
    bad := false;
    forall id | cfg.Has(id) && id.queue == q ensures CellOk(cfg, m, id) {
      assert id == Id(q, id.head);
    }
  }

  /** The nonzero numbers a field of the records takes. */
  function Nonzero(keys: seq<nat>): (r: seq<nat>) {
    if keys == [] then [] else Nonzero(keys[..|keys| - 1]) + if keys[|keys| - 1] != 0 then [keys[|keys| - 1]] else []
  }

  ghost predicate Twice(keys: seq<nat>) {
    exists i, j | 0 <= i < j < |keys| :: keys[i] == keys[j] && keys[i] != 0
  }

  lemma {:induction false} NonzeroMember(keys: seq<nat>, v: nat)
    ensures v in Nonzero(keys) <==> v != 0 && v in keys
    decreases |keys|
  {
    if keys != [] {
      NonzeroMember(keys[..|keys| - 1], v);
      assert keys == keys[..|keys| - 1] + [keys[|keys| - 1]];
    }
  }

  lemma {:induction false} NonzeroTwice(keys: seq<nat>)
    ensures !Unique(Nonzero(keys)) <==> Twice(keys)
    decreases |keys|
  {
    if keys != [] {
      var rest := keys[..|keys| - 1];
      var last := keys[|keys| - 1];
      var kept := Nonzero(rest);
      NonzeroTwice(rest);
      NonzeroMember(rest, last);
      if Twice(rest) {
        var i, j :| 0 <= i < j < |rest| && rest[i] == rest[j] && rest[i] != 0;
        assert keys[i] == keys[j];
        var x, y :| 0 <= x < y < |kept| && kept[x] == kept[y];
        assert Nonzero(keys)[x] == Nonzero(keys)[y];
      } else if last != 0 && last in rest {
        var i :| 0 <= i < |rest| && rest[i] == last;
        assert keys[i] == keys[|keys| - 1];
        var x :| 0 <= x < |kept| && kept[x] == last;
        assert Nonzero(keys)[x] == Nonzero(keys)[|kept|];
      } else {
        forall i, j | 0 <= i < j < |keys| ensures keys[i] != keys[j] || keys[i] == 0 {
          assert j < |rest| ==> keys[i] == rest[i] && keys[j] == rest[j];
          assert keys[i] == rest[i];
        }
        forall x, y | 0 <= x < y < |Nonzero(keys)| ensures Nonzero(keys)[x] != Nonzero(keys)[y] {
          if y == |kept| { assert kept[x] in kept; }
        }
      }
    }
  }

  method Collect(s: seq<Saved>, mutations: bool) returns (keys: seq<nat>, ghost all: seq<nat>)
    ensures keys == Nonzero(all) && |all| == |s|
    ensures forall i | 0 <= i < |s| :: all[i] == if mutations then s[i].entry.mutation else s[i].entry.discovery
  {
    keys, all := [], [];
    var i := 0;
    while i < |s|
      invariant i <= |s| && |all| == i && keys == Nonzero(all)
      invariant forall k | 0 <= k < i :: all[k] == if mutations then s[k].entry.mutation else s[k].entry.discovery
    {
      var key := if mutations then s[i].entry.mutation else s[i].entry.discovery;
      assert (all + [key])[..i] == all;
      all := all + [key];
      if key != 0 { keys := keys + [key]; }
      i := i + 1;
    }
  }

  method Clashes(s: seq<Saved>) returns (clash: bool)
    requires Ascending(s, SerialOf())
    ensures clash <==> !Distinct(s)
  {
    var i := 1;
    while i < |s|
      invariant 1 <= i
      invariant forall x, y | 0 <= x < y < i && y < |s| ::
        s[x].entry.serial == s[y].entry.serial ==> s[x].entry.serial == 0
    {
      if s[i - 1].entry.serial != 0 && s[i - 1].entry.serial == s[i].entry.serial { return true; }
      forall x | 0 <= x < i && s[x].entry.serial == s[i].entry.serial ensures s[x].entry.serial == 0 {
        assert x < i - 1 ==> SerialOf()(s[x]) <= SerialOf()(s[i - 1]);
        assert SerialOf()(s[i - 1]) <= SerialOf()(s[i]);
      }
      i := i + 1;
    }
    var keys, all := Collect(s, false);
    NonzeroTwice(all);
    clash := Repeats(keys);
    if !clash {
      var keys', all' := Collect(s, true);
      NonzeroTwice(all');
      clash := Repeats(keys');
    }
  }

  method FindHead(saved: seq<Saved>, id: Id) returns (r: Option<Saved>)
    ensures r == AtHead(saved, id)
  {
    var i := 0;
    while i < |saved|
      invariant i <= |saved| && AtHead(saved, id) == AtHead(saved[i..], id)
    {
      if saved[i].Where() == id { return Some(saved[i]); }
      assert saved[i..][1..] == saved[i + 1..];
      i := i + 1;
    }
    r := None;
  }

  /** Per queue, the completion the guest saw but the mapping did not finish. */
  method Interruptions(m: Memory, saved: seq<Saved>, guest: seq<Option<u16>>)
      returns (res: Result<seq<(Entry, u16)>, string>)
    requires |guest| == |m.queues|
    ensures res.Ok? <==> Completed(m, saved, guest, |guest|).Ok?
    ensures res.Ok? ==> res == Completed(m, saved, guest, |guest|)
  {
    var done: seq<(Entry, u16)> := [];
    var q := 0;
    while q < |guest|
      invariant q <= |guest| && Completed(m, saved, guest, q) == Ok(done)
    {
      CompletedStops(m, saved, guest, q + 1, |guest|);
      var s := m.queues[q];
      if s.version == 0 && guest[q].None? {
        q := q + 1;
        continue;
      }
      if guest[q].None? { return Err("initialized queue has no guest used cursor"); }
      var used := guest[q].value;
      if s.version != 1 { return Err("guest queue has no initialized inflight region"); }
      var ahead := Sub16(used, s.used);
      if ahead > 1 { return Err("guest used cursor exceeds one completion transaction"); }
      if ahead == 1 {
        var r := FindHead(saved, Id(q, s.lastHead));
        if r.None? { return Err("used publication has no saved head"); }
        if r.value.state != ACTIVE || r.value.entry.Required() > m.published {
          return Err("used publication precedes active request or published mutation");
        }
        done := done + [(r.value.entry, used)];
      }
      q := q + 1;
    }
    res := Ok(done);
  }

  lemma {:induction false} CompletedStops(m: Memory, saved: seq<Saved>, guest: seq<Option<u16>>, k: nat, n: nat)
    requires k <= n <= |m.queues| && n <= |guest|
    ensures Completed(m, saved, guest, k).Err? ==> Completed(m, saved, guest, n).Err?
    decreases n
  {
    hide Interrupted;
    if k < n {
      CompletedStops(m, saved, guest, k, n - 1);
    }
  }

  /** The newest record, and the highest mutation any record holds. */
  method Highest(m: Memory, saved: seq<Saved>) returns (latest: Option<Saved>, serial: nat, mutation: nat)
    ensures latest == Latest(m, saved)
    ensures serial == HighestSerial(m, saved)
    ensures mutation == HighestMutation(m.mutation, saved)
  {
    var best: Option<Saved> := None;
    mutation := m.mutation;
    var i := 0;
    while i < |saved|
      invariant i <= |saved| && best == Newest(saved[..i]) && mutation == HighestMutation(m.mutation, saved[..i])
    {
      assert saved[..i + 1][..i] == saved[..i];
      var r := saved[i];
      if best.None? || r.entry.discovery >= best.value.entry.discovery { best := Some(r); }
      if r.entry.mutation > mutation { mutation := r.entry.mutation; }
      i := i + 1;
    }
    assert saved[..|saved|] == saved;
    latest := if best.Some? && best.value.entry.discovery >= m.discovery then best else None;
    serial :=
      if saved != [] && saved[|saved| - 1].entry.serial > m.serial then saved[|saved| - 1].entry.serial
      else m.serial;
  }

  method AlreadyDone(done: seq<(Entry, u16)>, e: Entry) returns (b: bool)
    ensures b <==> IsDone(done, e)
  {
    var i := 0;
    while i < |done|
      invariant i <= |done| && forall k | 0 <= k < i :: done[k].0 != e
    {
      if done[i].0 == e { return true; }
      i := i + 1;
    }
    b := false;
  }
}
