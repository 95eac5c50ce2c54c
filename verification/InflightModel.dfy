/**
 * What the carrier means: which request owns each descriptor head, the numbers
 * issued so far, and which used entries the guest has seen. Each transition is
 * the single atomic step a store sequence commits.
 */
module InflightModel {
  import opened Units
  import opened InflightLayout

  datatype Owner =
    | Free
    | Found(request: Request, discovery: nat)
    | Admitted(entry: Entry)
    | Retiring(entry: Entry)  // the used entry is out, the slot not yet freed

  datatype Cursor = Cursor(live: bool, available: u16, used: u16, offset: u16)

  /** A used entry, with the published prefix at that moment. */
  datatype Done = Done(entry: Entry, success: bool, prefix: nat)

  datatype Model = Model(
    owner: map<Id, Owner>, cursors: seq<Cursor>, start: nat,
    found: seq<Request>, history: seq<Entry>, mutation: nat, published: nat,
    failed: bool, done: seq<Done>)

  predicate HasEntry(o: Owner) { o.Admitted? || o.Retiring? }

  function RequestOf(o: Owner): Request
    requires !o.Free?
  {
    if o.Found? then o.request else o.entry.request
  }

  function DiscoveryOf(o: Owner): nat
    requires !o.Free?
  {
    if o.Found? then o.discovery else o.entry.discovery
  }

  /** Number of mutations issued by a prefix of the admissions. */
  function Issued(history: seq<Entry>): nat {
    if history == [] then 0
    else Issued(history[..|history| - 1]) + if history[|history| - 1].mutation != 0 then 1 else 0
  }

  ghost predicate Numbered(a: Model) {
    && a.mutation == a.start + Issued(a.history)
    && (forall i | 0 <= i < |a.history| :: NumberedAt(a.history, a.start, i))
    && (forall i | 0 <= i < |a.history| :: a.history[i].boundary <= a.mutation && a.history[i].mutation <= a.mutation)
    && (forall i, j | 0 <= i < j < |a.history| ::
          a.history[i].boundary <= a.history[j].boundary && a.history[i].mutation <= a.history[j].boundary)
  }

  /** Serials count admissions; a mutation's number follows its boundary. */
  ghost predicate NumberedAt(history: seq<Entry>, start: nat, i: nat)
    requires i < |history|
  {
    var e := history[i];
    && e.serial == i + 1
    && e.boundary == start + Issued(history[..i])
    && e.mutation == if e.request.Mutates() && !e.rejected then e.boundary + 1 else 0
  }

  ghost predicate OwnerOk(cfg: Config, a: Model, id: Id, o: Owner)
    requires |a.cursors| == cfg.queues && cfg.Has(id)
  {
    !o.Free? ==>
      var r := RequestOf(o);
      var d := DiscoveryOf(o);
      && r.Where() == id
      && r.Valid(cfg.imageBytes)
      && a.cursors[id.queue].live
      && 1 <= d <= |a.found|
      && a.found[d - 1] == r
      && (d == |a.found| ==> a.cursors[id.queue].available == Next16(r.available))
      && (HasEntry(o) ==> EntryOk(cfg, a, o.entry))
      && (o.Retiring? && !a.failed ==> o.entry.Required() <= a.published)
  }

  ghost predicate EntryOk(cfg: Config, a: Model, e: Entry) {
    && 1 <= e.serial <= |a.history|
    && a.history[e.serial - 1] == e
    && e.attachment == cfg.identity.attachment
  }

  ghost predicate DoneOk(a: Model, d: Done) {
    && 1 <= d.entry.serial <= |a.history|
    && a.history[d.entry.serial - 1] == d.entry
    && d.prefix <= a.published
    && (d.success ==> d.entry.Required() <= d.prefix)
  }

  ghost predicate Owned(cfg: Config, a: Model)
    requires |a.cursors| == cfg.queues
  {
    && (forall id :: id in a.owner <==> cfg.Has(id))
    && (forall id | id in a.owner :: OwnerOk(cfg, a, id, a.owner[id]))
    && (forall i, j | i in a.owner && j in a.owner && a.owner[i].Retiring? && a.owner[j].Retiring? :: i == j)
  }

  /** Descriptors of `queue` taken from the available ring and not yet used. */
  ghost function Outstanding(a: Model, queue: nat): set<Id> {
    set id | id in a.owner && id.queue == queue && (a.owner[id].Found? || a.owner[id].Admitted?)
  }

  /** Taken minus used, since the cursors were last set, is what is outstanding. */
  ghost predicate Balanced(a: Model, queue: nat)
    requires queue < |a.cursors|
  {
    var c := a.cursors[queue];
    c.live ==> Sub16(c.available, c.used) == Low16(c.offset + |Outstanding(a, queue)|)
  }

  ghost predicate ModelInv(cfg: Config, a: Model) {
    && cfg.Valid()
    && |a.cursors| == cfg.queues
    && |a.found| <= U64_MAX && |a.history| <= U64_MAX && a.mutation <= U64_MAX
    && Owned(cfg, a)
    && Numbered(a)
    && a.published <= a.mutation
    && (forall q | 0 <= q < cfg.queues :: Balanced(a, q))
    && (forall i | 0 <= i < |a.done| :: DoneOk(a, a.done[i]))
  }

  ghost predicate NoneRetiring(a: Model) {
    forall id | id in a.owner :: !a.owner[id].Retiring?
  }

  // ----- transitions ---------------------------------------------------------

  function Fresh(cfg: Config, prefix: nat): Model {
    Model(map id: Id | id in Ids(cfg) :: Free,
          seq(cfg.queues, i => Cursor(false, 0, 0, 0)), prefix, [], [], prefix, prefix, false, [])
  }

  function Ids(cfg: Config): set<Id> {
    set q, h | 0 <= q < cfg.queues && 0 <= h < cfg.size :: Id(q, h)
  }

  function Rebase(a: Model, q: nat, available: u16, used: u16): Model
    requires q < |a.cursors|
  {
    a.(cursors := a.cursors[q := Cursor(true, available, used, Sub16(available, used))])
  }

  predicate CanFind(cfg: Config, a: Model, r: Request) {
    && !a.failed
    && cfg.Has(r.Where())
    && r.Where() in a.owner
    && r.queue < |a.cursors|
    && r.Valid(cfg.imageBytes)
    && a.cursors[r.queue].live
    && a.cursors[r.queue].available == r.available
    && a.owner[r.Where()].Free?
    && |a.found| < U64_MAX
  }

  function Find(a: Model, r: Request): Model
    requires r.queue < |a.cursors|
  {
    var c := a.cursors[r.queue];
    a.(owner := a.owner[r.Where() := Found(r, |a.found| + 1)],
       found := a.found + [r],
       cursors := a.cursors[r.queue := c.(available := Next16(r.available))])
  }

  predicate CanAdmit(cfg: Config, a: Model, r: Request, rejected: bool) {
    && !a.failed
    && r.Where() in a.owner
    && a.owner[r.Where()].Found?
    && a.owner[r.Where()].request == r
    && |a.history| < U64_MAX
    && (r.Mutates() && !rejected ==> a.mutation < U64_MAX)
  }

  function NewEntry(cfg: Config, a: Model, r: Request, rejected: bool, discovery: nat): Entry {
    Entry(r, |a.history| + 1, if r.Mutates() && !rejected then a.mutation + 1 else 0, a.mutation,
          cfg.identity.attachment, rejected, discovery)
  }

  function Admit(cfg: Config, a: Model, r: Request, rejected: bool): Model
    requires r.Where() in a.owner && a.owner[r.Where()].Found?
  {
    var e := NewEntry(cfg, a, r, rejected, a.owner[r.Where()].discovery);
    a.(owner := a.owner[r.Where() := Admitted(e)],
       history := a.history + [e],
       mutation := if e.mutation != 0 then e.mutation else a.mutation)
  }

  predicate CanPublish(a: Model, prefix: nat) {
    !a.failed && a.published <= prefix <= a.mutation
  }

  predicate CanComplete(a: Model, e: Entry, used: u16, error: bool) {
    && a.failed == error
    && e.request.Where() in a.owner
    && e.request.queue < |a.cursors|
    && a.owner[e.request.Where()] == Admitted(e)
    && a.cursors[e.request.queue].used == used
    && (!error ==> e.Required() <= a.published)
  }

  /** The guest's used index moves past `e`. */
  function Use(a: Model, e: Entry, success: bool): Model
    requires e.request.queue < |a.cursors|
  {
    var q := e.request.queue;
    var c := a.cursors[q];
    a.(owner := a.owner[e.request.Where() := Retiring(e)],
       cursors := a.cursors[q := c.(used := Next16(c.used))],
       done := a.done + [Done(e, success, a.published)])
  }

  function Release(a: Model, id: Id): Model {
    a.(owner := a.owner[id := Free])
  }

  // ----- every transition keeps the model's invariant ------------------------

  lemma {:induction false} FreshInv(cfg: Config, prefix: nat)
    requires cfg.Valid() && prefix <= U64_MAX
    ensures ModelInv(cfg, Fresh(cfg, prefix)) && NoneRetiring(Fresh(cfg, prefix))
  {
    var a := Fresh(cfg, prefix);
    assert forall id :: id in Ids(cfg) <==> cfg.Has(id) by {
      forall id ensures id in Ids(cfg) <==> cfg.Has(id) {
        assert id == Id(id.queue, id.head);
      }
    }
  }

  lemma {:induction false} OutstandingFrame(a: Model, b: Model, q: nat)
    requires a.owner.Keys == b.owner.Keys
    requires forall id | id in a.owner && id.queue == q ::
               (a.owner[id].Found? || a.owner[id].Admitted?) <==> (b.owner[id].Found? || b.owner[id].Admitted?)
    ensures Outstanding(a, q) == Outstanding(b, q)
  {
    forall id ensures id in Outstanding(a, q) <==> id in Outstanding(b, q) {
      assert id in a.owner <==> id in a.owner.Keys;
      assert id in b.owner <==> id in b.owner.Keys;
    }
  }

  lemma {:induction false} RebaseInv(cfg: Config, a: Model, q: nat, available: u16, used: u16)
    requires ModelInv(cfg, a) && q < cfg.queues
    requires forall id | id in a.owner && id.queue == q :: a.owner[id].Free?
    ensures ModelInv(cfg, Rebase(a, q, available, used))
  {
    var b := Rebase(a, q, available, used);
    assert Outstanding(b, q) == {};
    forall p | 0 <= p < cfg.queues ensures Balanced(b, p) {
      OutstandingFrame(a, b, p);
      assert Balanced(a, p);
    }
    forall id | id in b.owner ensures OwnerOk(cfg, b, id, b.owner[id]) {
      assert OwnerOk(cfg, a, id, a.owner[id]);
    }
    forall i | 0 <= i < |b.done| ensures DoneOk(b, b.done[i]) {
      assert DoneOk(a, a.done[i]);
    }
  }

  lemma {:induction false} FindInv(cfg: Config, a: Model, r: Request)
    requires ModelInv(cfg, a) && CanFind(cfg, a, r)
    ensures ModelInv(cfg, Find(a, r))
  {
    var b := Find(a, r);
    forall p | 0 <= p < cfg.queues ensures Balanced(b, p) {
      FindBalance(a, r, p);
    }
    forall id | id in b.owner ensures OwnerOk(cfg, b, id, b.owner[id]) {
      assert OwnerOk(cfg, a, id, a.owner[id]);
    }
    forall i | 0 <= i < |b.done| ensures DoneOk(b, b.done[i]) {
      assert DoneOk(a, a.done[i]);
    }
  }

  /** One more taken, or one more used, moves the distance by one modulo 2^16. */
  lemma {:induction false} CursorStep(c: Cursor, n: nat)
    ensures Sub16(c.available, c.used) == Low16(c.offset + n) ==>
              Sub16(Next16(c.available), c.used) == Low16(c.offset + (n + 1))
    ensures Sub16(c.available, c.used) == Low16(c.offset + (n + 1)) ==>
              Sub16(c.available, Next16(c.used)) == Low16(c.offset + n)
  {
    var t := c.offset + n;
    assert Low16(t + 1) == if Low16(t) == 0xFFFF then 0 else Low16(t) + 1;
  }

  lemma {:induction false} FindBalance(a: Model, r: Request, p: nat)
    requires r.Where() in a.owner && a.owner[r.Where()].Free?
    requires r.queue < |a.cursors| && p < |a.cursors| && Balanced(a, p)
    requires a.cursors[r.queue].available == r.available
    ensures Balanced(Find(a, r), p)
  {
    var b := Find(a, r);
    if p == r.queue {
      var before := Outstanding(a, p);
      assert Outstanding(b, p) == before + {r.Where()};
      CursorStep(a.cursors[p], |before|);
    } else {
      OutstandingFrame(a, b, p);
    }
  }

  lemma {:induction false} AdmitInv(cfg: Config, a: Model, r: Request, rejected: bool)
    requires ModelInv(cfg, a) && CanAdmit(cfg, a, r, rejected)
    ensures ModelInv(cfg, Admit(cfg, a, r, rejected))
  {
    var b := Admit(cfg, a, r, rejected);
    AdmitNumbered(cfg, a, r, rejected);
    forall p | 0 <= p < cfg.queues ensures Balanced(b, p) {
      assert Balanced(a, p);
      OutstandingFrame(a, b, p);
    }
    forall id | id in b.owner ensures OwnerOk(cfg, b, id, b.owner[id]) {
      assert OwnerOk(cfg, a, id, a.owner[id]);
    }
    forall i | 0 <= i < |b.done| ensures DoneOk(b, b.done[i]) {
      assert DoneOk(a, a.done[i]);
    }
  }

  lemma {:induction false} AdmitNumbered(cfg: Config, a: Model, r: Request, rejected: bool)
    requires ModelInv(cfg, a) && CanAdmit(cfg, a, r, rejected)
    ensures Numbered(Admit(cfg, a, r, rejected))
  {
    var b := Admit(cfg, a, r, rejected);
    var n := |a.history|;
    assert b.history[..n] == a.history;
    forall i | 0 <= i < |b.history| ensures NumberedAt(b.history, b.start, i) {
      if i < n {
        assert NumberedAt(a.history, a.start, i);
        assert b.history[..i] == a.history[..i];
      }
    }
  }

  lemma {:induction false} PublishInv(cfg: Config, a: Model, prefix: nat)
    requires ModelInv(cfg, a) && CanPublish(a, prefix)
    ensures ModelInv(cfg, a.(published := prefix))
  {
    var b := a.(published := prefix);
    forall p | 0 <= p < cfg.queues ensures Balanced(b, p) {
      assert Balanced(a, p);
      OutstandingFrame(a, b, p);
    }
    forall id | id in b.owner ensures OwnerOk(cfg, b, id, b.owner[id]) {
      assert OwnerOk(cfg, a, id, a.owner[id]);
    }
    forall i | 0 <= i < |b.done| ensures DoneOk(b, b.done[i]) {
      assert DoneOk(a, a.done[i]);
    }
  }

  lemma {:induction false} FailInv(cfg: Config, a: Model)
    requires ModelInv(cfg, a)
    ensures ModelInv(cfg, a.(failed := true))
  {
    var b := a.(failed := true);
    forall p | 0 <= p < cfg.queues ensures Balanced(b, p) {
      assert Balanced(a, p);
      OutstandingFrame(a, b, p);
    }
    forall id | id in b.owner ensures OwnerOk(cfg, b, id, b.owner[id]) {
      assert OwnerOk(cfg, a, id, a.owner[id]);
    }
    forall i | 0 <= i < |b.done| ensures DoneOk(b, b.done[i]) {
      assert DoneOk(a, a.done[i]);
    }
  }

  lemma {:induction false} UseInv(cfg: Config, a: Model, e: Entry, used: u16, error: bool)
    requires ModelInv(cfg, a) && NoneRetiring(a) && CanComplete(a, e, used, error)
    ensures ModelInv(cfg, Use(a, e, !error))
  {
    hide Owned, Balanced, Numbered, NoneRetiring;
    var b := Use(a, e, !error);
    NumberedSame(a, b);
    UseOwned(cfg, a, e, used, error);
    forall p | 0 <= p < cfg.queues ensures Balanced(b, p) {
      UseBalance(a, e, !error, p);
    }
    forall i | 0 <= i < |b.done| ensures DoneOk(b, b.done[i]) {
      if i < |a.done| { DoneSame(a, b, i); }
    }
  }

  lemma {:induction false} UseOwned(cfg: Config, a: Model, e: Entry, used: u16, error: bool)
    requires |a.cursors| == cfg.queues && Owned(cfg, a) && NoneRetiring(a) && CanComplete(a, e, used, error)
    ensures Owned(cfg, Use(a, e, !error)) && EntryOk(cfg, a, e)
  {
    var b := Use(a, e, !error);
    assert OwnerOk(cfg, a, e.request.Where(), Admitted(e));
    forall id | id in b.owner ensures OwnerOk(cfg, b, id, b.owner[id]) {
      assert OwnerOk(cfg, a, id, a.owner[id]);
    }
  }

  lemma {:induction false} NumberedSame(a: Model, b: Model)
    requires b.history == a.history && b.start == a.start && b.mutation == a.mutation
    ensures Numbered(a) <==> Numbered(b)
  {
  }

  lemma {:induction false} UseBalance(a: Model, e: Entry, success: bool, p: nat)
    requires e.request.Where() in a.owner && a.owner[e.request.Where()] == Admitted(e)
    requires e.request.queue < |a.cursors| && p < |a.cursors| && Balanced(a, p)
    ensures Balanced(Use(a, e, success), p)
  {
    var id := e.request.Where();
    var b := Use(a, e, success);
    if p == e.request.queue {
      var after := Outstanding(b, p);
      assert Outstanding(a, p) == after + {id};
      CursorStep(a.cursors[p], |after|);
    } else {
      OutstandingFrame(a, b, p);
    }
  }

  lemma {:induction false} ReleaseInv(cfg: Config, a: Model, id: Id)
    requires ModelInv(cfg, a) && id in a.owner && a.owner[id].Retiring?
    ensures ModelInv(cfg, Release(a, id)) && NoneRetiring(Release(a, id))
  {
    hide Owned, Balanced, Numbered, DoneOk, NoneRetiring;
    var b := Release(a, id);
    NumberedSame(a, b);
    ReleaseOwned(cfg, a, id);
    forall p | 0 <= p < cfg.queues ensures Balanced(b, p) {
      ReleaseBalance(a, id, p);
    }
    forall i | 0 <= i < |b.done| ensures DoneOk(b, b.done[i]) {
      DoneSame(a, b, i);
    }
  }

  lemma {:induction false} ReleaseOwned(cfg: Config, a: Model, id: Id)
    requires |a.cursors| == cfg.queues && Owned(cfg, a) && id in a.owner && a.owner[id].Retiring?
    ensures Owned(cfg, Release(a, id)) && NoneRetiring(Release(a, id))
  {
    var b := Release(a, id);
    forall i | i in b.owner ensures OwnerOk(cfg, b, i, b.owner[i]) {
      assert OwnerOk(cfg, a, i, a.owner[i]);
    }
  }

  lemma {:induction false} ReleaseBalance(a: Model, id: Id, p: nat)
    requires id in a.owner && a.owner[id].Retiring? && p < |a.cursors| && Balanced(a, p)
    ensures Balanced(Release(a, id), p)
  {
    OutstandingFrame(a, Release(a, id), p);
  }

  lemma {:induction false} DoneSame(a: Model, b: Model, i: nat)
    requires b.history == a.history && b.published == a.published && i < |a.done| && a.done <= b.done
    requires DoneOk(a, a.done[i])
    ensures DoneOk(b, b.done[i])
  {
  }

  // ----- what the invariant says ---------------------------------------------

  /**
   * Writes and the three ways of zeroing a range are numbered, contiguously in
   * serial order, unless rejected or empty; nothing else is.
   */
  lemma {:induction false} MutationsContiguous(cfg: Config, a: Model, i: nat)
    requires ModelInv(cfg, a) && i < |a.history|
    ensures a.history[i].serial == i + 1
    ensures var e := a.history[i]; var k := e.request.kind;
      e.mutation != 0 <==> !e.rejected && e.request.length != 0 && (k.Write? || k.Zero? || k.Discard? || k.ZeroUnmap?)
    ensures a.history[i].mutation != 0 ==> a.history[i].mutation == a.start + Issued(a.history[..i + 1])
    ensures a.history[i].boundary == a.start + Issued(a.history[..i])
  {
    assert NumberedAt(a.history, a.start, i);
    assert a.history[..i + 1][..i] == a.history[..i];
  }

  /**
   * A successful READ or FLUSH saw every write and zeroing accepted before it; a
   * successful write or zeroing is itself within the published prefix.
   */
  lemma {:induction false} CompletionsWithinPrefix(cfg: Config, a: Model, k: nat)
    requires ModelInv(cfg, a) && k < |a.done| && a.done[k].success
    ensures a.done[k].prefix <= a.published <= a.mutation
    ensures 1 <= a.done[k].entry.serial <= |a.history| && a.history[a.done[k].entry.serial - 1] == a.done[k].entry
    ensures var d := a.done[k]; var kind := d.entry.request.kind;
      && (!d.entry.rejected && (kind.Read? || kind.Flush?) ==>
            d.entry.boundary <= d.prefix &&
            forall i | 0 <= i < d.entry.serial - 1 && Alters(a.history[i]) :: 1 <= a.history[i].mutation <= d.prefix)
      && (Alters(d.entry) ==> 1 <= d.entry.mutation <= d.prefix)
  {
    var d := a.done[k];
    assert DoneOk(a, d);
    assert NumberedAt(a.history, a.start, d.entry.serial - 1);
    forall i | 0 <= i < d.entry.serial - 1 && Alters(a.history[i]) && !d.entry.rejected &&
      (d.entry.request.kind.Read? || d.entry.request.kind.Flush?) ensures 1 <= a.history[i].mutation <= d.prefix
    {
      MutationsContiguous(cfg, a, i);
    }
    MutationsContiguous(cfg, a, d.entry.serial - 1);
  }

  /** An accepted request that alters the image: a write or a zeroing of at least one byte. */
  predicate Alters(e: Entry) {
    !e.rejected && e.request.length > 0 &&
    match e.request.kind
    case Write => true
    case Zero => true
    case Discard => true
    case ZeroUnmap => true
    case Read => false
    case Flush => false
    case Protocol => false
  }
}
