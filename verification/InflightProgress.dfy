/**
 * What a healthy carrier is for: every descriptor it may take is admitted,
 * completed as soon as its boundary is published and not before, and its head
 * given back. The conditions are those of the wire format, kind by kind.
 */
module InflightProgress {
  import opened Units
  import opened InflightLayout
  import opened InflightModel
  import opened InflightRefinement
  import opened InflightOperations
  import opened InflightRuns

  /** A request the image has room for: control requests carry no range, others whole blocks. */
  predicate InImage(r: Request, imageBytes: nat) {
    match r.kind
    case Flush => r.offset == 0 && r.length == 0
    case Protocol => r.offset == 0 && r.length == 0
    case Read => Blocks(r, imageBytes) && 4096 <= r.length <= 256 * 4096
    case Write => Blocks(r, imageBytes) && 4096 <= r.length <= 256 * 4096
    case Zero => Blocks(r, imageBytes)
    case Discard => Blocks(r, imageBytes)
    case ZeroUnmap => Blocks(r, imageBytes)
  }

  predicate Blocks(r: Request, imageBytes: nat) {
    r.offset % 4096 == 0 && r.length % 4096 == 0 && r.offset + r.length <= imageBytes
  }

  /** May the guest be told that `e` succeeded once mutations up to `p` are published? */
  predicate Due(e: Entry, p: nat) {
    e.rejected ||
    match e.request.kind
    case Protocol => true
    case Read => e.boundary <= p
    case Flush => e.boundary <= p
    case Write => e.mutation <= p
    case Zero => e.request.length == 0 || e.mutation <= p
    case Discard => e.request.length == 0 || e.mutation <= p
    case ZeroUnmap => e.request.length == 0 || e.mutation <= p
  }

  lemma {:induction false} ValidIs(r: Request, imageBytes: nat)
    ensures r.Valid(imageBytes) <==> InImage(r, imageBytes)
  {
  }

  /** A free head of a live queue, the request its available cursor names, and a number for it. */
  predicate Waiting(cfg: Config, a: Model, r: Request) {
    && r.queue < cfg.queues && r.head < cfg.size && r.queue < |a.cursors|
    && InImage(r, cfg.imageBytes)
    && a.cursors[r.queue].live && a.cursors[r.queue].available == r.available
    && Id(r.queue, r.head) in a.owner && a.owner[Id(r.queue, r.head)] == Free
    && |a.found| < 0xFFFF_FFFF_FFFF_FFFF
  }

  /** A request that waits, or was taken already, and numbers for its entry. */
  predicate Admissible(cfg: Config, a: Model, r: Request, rejected: bool) {
    && |a.history| < 0xFFFF_FFFF_FFFF_FFFF
    && (Waiting(cfg, a, r) || (r.Where() in a.owner && a.owner[r.Where()].Found? && a.owner[r.Where()].request == r))
    && (Alters(EntryFor(cfg, a, r, rejected)) ==> a.mutation < 0xFFFF_FFFF_FFFF_FFFF)
  }

  /** Exactly which descriptors a settled carrier takes, and which requests it admits. */
  lemma {:induction false} TakesExactly(cfg: Config, w: World, a: Model, r: Request, rejected: bool)
    requires Settled(cfg, w, a)
    ensures DiscoverOk(cfg, w.m, r) <==> !a.failed && Waiting(cfg, a, r)
    ensures AdmitOk(cfg, w.m, r, rejected) <==> !a.failed && Admissible(cfg, a, r, rejected)
  {
    hide Settled, DiscoverOk, AdmitOk, InImage;
    DiscoverGuard(cfg, w, a, r);
    AdmitGuard(cfg, w, a, r, rejected);
    ValidIs(r, cfg.imageBytes);
  }

  /** `e` is admitted and unanswered, and `used` is where its queue stands. */
  predicate Open(a: Model, e: Entry, used: u16) {
    && e.request.Where() in a.owner && a.owner[e.request.Where()] == Admitted(e)
    && e.request.queue < |a.cursors| && a.cursors[e.request.queue].used == used
  }

  /** Exactly which completions it accepts. */
  lemma {:induction false} CompletesExactly(cfg: Config, w: World, a: Model, e: Entry, used: u16)
    requires Settled(cfg, w, a)
    ensures CompleteOk(cfg, w.m, e, used, false) <==> !a.failed && Open(a, e, used) && Due(e, a.published)
    ensures CompleteOk(cfg, w.m, e, used, true) <==> a.failed && Open(a, e, used)
  {
    CompleteGuard(cfg, w, a, e, used, false);
    CompleteGuard(cfg, w, a, e, used, true);
    if e.request.Where() in a.owner && a.owner[e.request.Where()] == Admitted(e) {
      DueIs(cfg, w, a, e);
    }
    hide Settled, CompleteOk, Due;
  }

  lemma {:induction false} DueIs(cfg: Config, w: World, a: Model, e: Entry)
    requires Settled(cfg, w, a) && e.request.Where() in a.owner && a.owner[e.request.Where()] == Admitted(e)
    ensures forall p: nat :: e.Required() <= p <==> Due(e, p)
  {
    assert OwnerOk(cfg, a, e.request.Where(), a.owner[e.request.Where()]);
    MutationsContiguous(cfg, a, e.serial - 1);
    hide Settled;
  }

  /** A queue is set up once; it is rebased only while none of its heads is owned. */
  lemma {:induction false} SetsUpExactly(cfg: Config, w: World, a: Model, q: nat)
    requires Settled(cfg, w, a)
    ensures InitializeOk(cfg, w.m, q) <==> !a.failed && q < |a.cursors| && !a.cursors[q].live
    ensures ResetOk(cfg, w.m, q) <==>
      && !a.failed && q < |a.cursors| && a.cursors[q].live
      && forall id | id in a.owner && id.queue == q :: a.owner[id] == Free
    ensures w.m.failed == 0 <==> !a.failed
    ensures |w.m.queues| == |w.guest| == |a.cursors| == cfg.queues
    ensures forall h | 0 <= h < cfg.size && q < cfg.queues ::
      Id(q, h) in w.m.cells && Id(q, h) in a.owner &&
      (w.m.cells[Id(q, h)].state == EMPTY && w.m.cells[Id(q, h)].inflight == 0 <==> a.owner[Id(q, h)] == Free)
  {
    SettledExact(cfg, w, a);
    hide ModelInv, HeaderRef;
    if q < cfg.queues { assert QueueRef(cfg, w, a, q); }
    forall h | 0 <= h < cfg.size && q < cfg.queues
      ensures Id(q, h) in w.m.cells && Id(q, h) in a.owner
      ensures w.m.cells[Id(q, h)].state == EMPTY && w.m.cells[Id(q, h)].inflight == 0 <==> a.owner[Id(q, h)] == Free
    {
      assert CellRef(cfg, w, a, Id(q, h));
    }
    if ResetOk(cfg, w.m, q) {
      forall id | id in a.owner && id.queue == q ensures a.owner[id] == Free {
        assert id == Id(q, id.head);
      }
    }
  }

  // ----- one request from beginning to end -----------------------------------

  /** The entry an admission of `r` makes. */
  function EntryFor(cfg: Config, a: Model, r: Request, rejected: bool): Entry {
    var e := Entry(r, |a.history| + 1, 0, a.mutation, cfg.identity.attachment, rejected, |a.found| + 1);
    if Alters(e) then e.(mutation := a.mutation + 1) else e
  }

  /** A descriptor the carrier may take, with numbers to spare. */
  ghost predicate Takeable(cfg: Config, s: Sys, r: Request) {
    s.serving && !s.a.failed && Waiting(cfg, s.a, r) && |s.a.history| < U64_MAX && s.a.mutation < U64_MAX
  }

  lemma {:induction false} SettledOf(cfg: Config, s: Sys)
    requires Safe(cfg, s) && s.serving
    ensures Settled(cfg, s.w, s.a)
  {
  }

  /** The model once `r` is admitted as `e`. */
  function Entered(a: Model, r: Request, e: Entry): Model
    requires r.queue < |a.cursors|
  {
    var c := a.cursors[r.queue];
    a.(owner := a.owner[r.Where() := Admitted(e)], found := a.found + [r], history := a.history + [e],
       cursors := a.cursors[r.queue := c.(available := Next16(c.available))],
       mutation := if e.mutation != 0 then e.mutation else a.mutation)
  }

  lemma {:induction false} EnterStep(cfg: Config, s: Sys, r: Request, rejected: bool)
    requires Safe(cfg, s) && Takeable(cfg, s, r)
    ensures var t := Step(cfg, s, Call(Enter(r, rejected), 22));
      && Safe(cfg, t) && t.serving
      && t.a == Entered(s.a, r, EntryFor(cfg, s.a, r, rejected))
  {
    hide Settled, Safe, AdmitOk, InImage, OpStores, OpModel, Step, Entered, EntryFor;
    StepSafe(cfg, s, Call(Enter(r, rejected), 22));
    SettledOf(cfg, s);
    AdmitGuard(cfg, s.w, s.a, r, rejected);
    ValidIs(r, cfg.imageBytes);
    EnterModel(cfg, s, r, rejected);
    CalledIs(cfg, s, Enter(r, rejected), 22);
  }

  lemma {:induction false} EnterModel(cfg: Config, s: Sys, r: Request, rejected: bool)
    requires Settled(cfg, s.w, s.a) && Takeable(cfg, s, r)
    ensures |OpStores(cfg, s.w, Enter(r, rejected))| == 22
    ensures OpModel(cfg, s.w, s.a, Enter(r, rejected), 22) == Entered(s.a, r, EntryFor(cfg, s.a, r, rejected))
  {
    hide Settled, InImage;
    EmptyHead(cfg, s.w, s.a, r.Where());
    var b := Find(s.a, r);
    assert b.owner[r.Where() := Admitted(EntryFor(cfg, s.a, r, rejected))] ==
      s.a.owner[r.Where() := Admitted(EntryFor(cfg, s.a, r, rejected))];
  }

  lemma {:induction false} EmptyHead(cfg: Config, w: World, a: Model, id: Id)
    requires Settled(cfg, w, a) && id in a.owner && a.owner[id].Free?
    ensures id in w.m.cells && w.m.cells[id].state == EMPTY
  {
    SettledExact(cfg, w, a);
  }

  lemma {:induction false} AdvanceStep(cfg: Config, s: Sys, p: nat)
    requires Safe(cfg, s) && s.serving && !s.a.failed && s.a.published <= p <= s.a.mutation
    ensures var t := Step(cfg, s, Call(Advance(p), 1));
      Safe(cfg, t) && t.serving && t.a == s.a.(published := p)
  {
    StepSafe(cfg, s, Call(Advance(p), 1));
    SettledOf(cfg, s);
    SettledExact(cfg, s.w, s.a);
    assert s.w.m.published == s.a.published && s.w.m.failed == 0;
    hide Settled, Safe, Run, Cut;
  }

  /** The model once `e` has its used entry and its head is free. */
  function Answered(a: Model, e: Entry, ok: bool): Model
    requires e.request.queue < |a.cursors|
  {
    var c := a.cursors[e.request.queue];
    a.(owner := a.owner[e.request.Where() := Free], done := a.done + [Done(e, ok, a.published)],
       cursors := a.cursors[e.request.queue := c.(used := Next16(c.used))])
  }

  function Closing(a: Model, e: Entry, error: bool): Op
    requires e.request.queue < |a.cursors|
  {
    var used := a.cursors[e.request.queue].used;
    if error then Retire(e, used, true) else Complete(e, used, true)
  }

  lemma {:induction false} ClosingModel(cfg: Config, w: World, a: Model, e: Entry, error: bool)
    requires e.request.queue < |a.cursors|
    ensures OpModel(cfg, w, a, Closing(a, e, error), 6) == Answered(a, e, !error)
    ensures |OpStores(cfg, w, Closing(a, e, error))| == 6
  {
    var b := Use(a, e, !error);
    assert Release(b, e.request.Where()).owner == a.owner[e.request.Where() := Free];
  }

  lemma {:induction false} CalledIs(cfg: Config, s: Sys, op: Op, k: nat)
    requires s.serving && k >= |OpStores(cfg, s.w, op)|
    ensures var t := Step(cfg, s, Call(op, k));
      t.serving && t.a == if OpOk(cfg, s.w.m, op) then OpModel(cfg, s.w, s.a, op, |OpStores(cfg, s.w, op)|) else s.a
  {
    hide OpOk, OpModel, OpStores, Run, Cut;
  }

  lemma {:induction false} ClosingOk(cfg: Config, s: Sys, e: Entry, error: bool)
    requires Settled(cfg, s.w, s.a) && e.request.Where() in s.a.owner && e.request.queue < |s.a.cursors|
    requires s.a.owner[e.request.Where()] == Admitted(e) && s.a.failed == error
    ensures OpOk(cfg, s.w.m, Closing(s.a, e, error)) <==> error || Due(e, s.a.published)
  {
    CompletesExactly(cfg, s.w, s.a, e, s.a.cursors[e.request.queue].used);
    hide Settled, CompleteOk, Due;
  }

  lemma {:induction false} CompleteStep(cfg: Config, s: Sys, e: Entry, error: bool)
    requires Safe(cfg, s) && s.serving && e.request.Where() in s.a.owner && e.request.queue < |s.a.cursors|
    requires s.a.owner[e.request.Where()] == Admitted(e) && s.a.failed == error
    ensures var t := Step(cfg, s, Call(Closing(s.a, e, error), 6));
      && Safe(cfg, t) && t.serving
      && t.a == if error || Due(e, s.a.published) then Answered(s.a, e, !error) else s.a
  {
    hide *;
    StepSafe(cfg, s, Call(Closing(s.a, e, error), 6));
    SettledOf(cfg, s);
    ClosingOk(cfg, s, e, error);
    ClosingModel(cfg, s.w, s.a, e, error);
    CalledIs(cfg, s, Closing(s.a, e, error), 6);
  }

  lemma {:induction false} ExecOne(cfg: Config, s: Sys, e: Event)
    ensures Exec(cfg, s, [e]) == Step(cfg, s, e)
  {
    hide Step;
    assert [e][..0] == [];
  }

  lemma {:induction false} ExecMore(cfg: Config, s: Sys, events: seq<Event>, e: Event)
    ensures Exec(cfg, s, events + [e]) == Step(cfg, Exec(cfg, s, events), e)
  {
    hide Step;
    assert (events + [e])[..|events|] == events;
  }

  /** Take `r`, publish up to `p`, and complete it. */
  function Serving(cfg: Config, a: Model, r: Request, rejected: bool, p: nat): seq<Event>
    requires r.queue < |a.cursors|
  {
    [Call(Enter(r, rejected), 22), Call(Advance(p), 1),
     Call(Complete(EntryFor(cfg, a, r, rejected), a.cursors[r.queue].used, true), 6)]
  }

  /** What serving `r` leaves: answered and its head free again, or admitted and waiting. */
  ghost predicate Served(a: Model, r: Request, e: Entry, p: nat, b: Model)
    requires r.queue < |a.cursors|
  {
    var c := a.cursors[r.queue];
    && b.found == a.found + [r] && b.history == a.history + [e] && b.published == p && !b.failed
    && (if Due(e, p) then
          && b.owner == a.owner && b.done == a.done + [Done(e, true, p)]
          && b.cursors == a.cursors[r.queue := c.(available := Next16(c.available), used := Next16(c.used))]
        else
          && b.owner == a.owner[r.Where() := Admitted(e)] && b.done == a.done
          && b.cursors == a.cursors[r.queue := c.(available := Next16(c.available))])
  }

  lemma {:induction false} ServedIs(a: Model, r: Request, e: Entry, p: nat, b: Model)
    requires r.queue < |a.cursors| && e.request == r && r.Where() in a.owner && a.owner[r.Where()] == Free && !a.failed
    requires var m := Entered(a, r, e).(published := p);
      b == if Due(e, p) then Answered(m, e, true) else m
    ensures Served(a, r, e, p, b)
  {
    hide Due;
    assert a.owner[r.Where() := Admitted(e)][r.Where() := Free] == a.owner;
  }

  /**
   * From every safe state: a descriptor that may be taken is admitted as the
   * next entry, and with mutations up to `p` published it is completed exactly
   * when that is enough; its head is then free again and both cursors have moved
   * by one.
   */
  lemma {:induction false} OneRequest(cfg: Config, s: Sys, r: Request, rejected: bool, p: nat)
    requires Safe(cfg, s) && Takeable(cfg, s, r)
    requires var m := EntryFor(cfg, s.a, r, rejected).mutation; s.a.published <= p <= if m != 0 then m else s.a.mutation
    ensures var t := Exec(cfg, s, Serving(cfg, s.a, r, rejected, p));
      Safe(cfg, t) && t.serving && Served(s.a, r, EntryFor(cfg, s.a, r, rejected), p, t.a)
  {
    hide Safe, Step, Due, Alters, InImage, Exec, Served, Answered;
    var e := EntryFor(cfg, s.a, r, rejected);
    var last := Call(Complete(e, s.a.cursors[r.queue].used, true), 6);
    var enter, advance := Call(Enter(r, rejected), 22), Call(Advance(p), 1);
    assert [enter] + [advance] + [last] == Serving(cfg, s.a, r, rejected, p);
    ExecOne(cfg, s, enter);
    ExecMore(cfg, s, [enter], advance);
    ExecMore(cfg, s, [enter] + [advance], last);
    EnterStep(cfg, s, r, rejected);
    var s1 := Step(cfg, s, enter);
    AdvanceStep(cfg, s1, p);
    var s2 := Step(cfg, s1, advance);
    assert Call(Closing(s2.a, e, false), 6) == last;
    CompleteStep(cfg, s2, e, false);
    ServedIs(s.a, r, e, p, Step(cfg, s2, last).a);
  }

  /** Once the image has failed, any admitted request can be answered with an error, published or not. */
  lemma {:induction false} OneError(cfg: Config, s: Sys, id: Id)
    requires Safe(cfg, s) && s.serving && id in s.a.owner && s.a.owner[id].Admitted?
    ensures var e := s.a.owner[id].entry;
      && e.request.Where() == id && id.queue < |s.a.cursors|
      && var c := s.a.cursors[id.queue];
         var t := Exec(cfg, s, [Call(Poison, 1), Call(Retire(e, c.used, true), 6)]);
         && Safe(cfg, t) && t.serving && t.a.failed
         && t.a.owner == s.a.owner[id := Free] && t.a.done == s.a.done + [Done(e, false, s.a.published)]
         && t.a.cursors == s.a.cursors[id.queue := c.(used := Next16(c.used))]
  {
    hide Safe, Step, Settled, Due, Exec;
    SettledOf(cfg, s);
    OwnedBy(cfg, s, id);
    StepSafe(cfg, s, Call(Poison, 1));
    PoisonIs(cfg, s);
    var e := s.a.owner[id].entry;
    var s1 := Step(cfg, s, Call(Poison, 1));
    CompleteStep(cfg, s1, e, true);
    ExecOne(cfg, s, Call(Poison, 1));
    var last := Call(Retire(e, s.a.cursors[id.queue].used, true), 6);
    ExecMore(cfg, s, [Call(Poison, 1)], last);
    assert [Call(Poison, 1)] + [last] == [Call(Poison, 1), last];
  }

  lemma {:induction false} OwnedBy(cfg: Config, s: Sys, id: Id)
    requires Settled(cfg, s.w, s.a) && id in s.a.owner && s.a.owner[id].Admitted?
    ensures s.a.owner[id].entry.request.Where() == id && id.queue < |s.a.cursors|
  {
    assert OwnerOk(cfg, s.a, id, s.a.owner[id]);
  }

  lemma {:induction false} PoisonIs(cfg: Config, s: Sys)
    requires s.serving
    ensures var t := Step(cfg, s, Call(Poison, 1)); t.serving && t.a == s.a.(failed := true)
  {
  }
}
