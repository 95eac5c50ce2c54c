/**
 * Synchronous local execution: a frontend that packs admitted mutations into
 * batches and captures a boundary for each read and flush, a mailbox, a worker
 * that runs the commands in order over the packed log, and the backend that
 * fails the image once a call on the frontend has returned an error.
 */
module LocalOrder {
  import opened Units
  import opened PackedLog

  datatype Write = Write(id: nat, change: Change)

  datatype Command = Append(writes: seq<Write>) | Io(id: nat, flush: bool, boundary: nat)

  /** A completion of command `at`: how far the log was durable when it was given. */
  datatype Reply = Reply(id: nat, at: nat, ok: bool, flush: bool, boundary: nat, durable: nat)

  /**
   * `good` counts the commands run before the image failed. `order` is every
   * mutation in admission order, `lost` how many of them a refused send gave
   * back, and `missing` says for each command sent how many that was by then.
   */
  datatype State = State(
    start: nat, admitted: nat, packing: Option<seq<Write>>, paused: bool, sent: seq<Command>, rejected: seq<nat>,
    ran: nat, good: nat, log: seq<Write>, durable: nat, failed: bool, replies: seq<Reply>,
    order: seq<Write>, lost: nat, missing: seq<nat>)

  function Fresh(start: nat): State {
    State(start, start, None, false, [], [], 0, 0, [], start, false, [], [], 0, [])
  }

  function Ids(writes: seq<Write>): seq<nat> {
    seq(|writes|, i requires 0 <= i < |writes| => writes[i].id)
  }

  // ----- the frontend --------------------------------------------------------

  /** Mail a command; if the mailbox refuses it, give everything in it back. */
  function Send(s: State, c: Command, delivered: bool): State {
    if delivered then s.(sent := s.sent + [c], missing := s.missing + [s.lost])
    else s.(rejected := s.rejected + (if c.Append? then Ids(c.writes) else [c.id]),
            lost := s.lost + if c.Append? then |c.writes| else 0)
  }

  function Sealing(s: State, delivered: bool): State {
    match s.packing
    case None => s
    case Some(writes) =>
      if writes == [] then s.(packing := None) else Send(s.(packing := None), Append(writes), delivered)
  }

  function Open(s: State): State {
    if s.paused || s.packing.Some? then s else s.(packing := Some([]))
  }

  /** A mutation is admitted by being packed. */
  function Packing(s: State, w: Write): State {
    if s.packing.None? || s.admitted >= U64_MAX then s
    else s.(packing := Some(s.packing.value + [w]), admitted := s.admitted + 1, order := s.order + [w])
  }

  function Queueing(s: State, id: nat, flush: bool, sealed: bool, delivered: bool): State {
    var c := Io(id, flush, s.admitted);
    if s.paused then s.(rejected := s.rejected + [id])
    else
      var t := Sealing(s, sealed);
      if SealFails(s, sealed) then t.(rejected := t.rejected + [id]) else Send(t, c, delivered)
  }

  /** A batch of mutations is refused. */
  predicate SealFails(s: State, delivered: bool) {
    s.packing.Some? && s.packing.value != [] && !delivered
  }

  /** `done` says whether the worker answers the barrier in time. */
  function Pausing(s: State, delivered: bool, done: bool): State {
    if s.paused then s else Sealing(s, delivered).(paused := done && !SealFails(s, delivered))
  }

  // ----- the worker ----------------------------------------------------------

  function BatchReplies(writes: seq<Write>, at: nat, ok: bool, durable: nat): seq<Reply> {
    seq(|writes|, i requires 0 <= i < |writes| => Reply(writes[i].id, at, ok, false, 0, durable))
  }

  /** Run the next command; `ok` is how its IO goes. A failure fails the image. */
  function Run(s: State, ok: bool): State {
    if s.ran >= |s.sent| then s else
    var t := s.(ran := s.ran + 1);
    if !s.failed && ok then
      match s.sent[s.ran]
      case Append(writes) =>
        t.(good := s.good + 1, log := s.log + writes,
           replies := s.replies + BatchReplies(writes, s.ran, true, s.durable))
      case Io(id, flush, boundary) =>
        var durable := if flush then s.start + |s.log| else s.durable;
        t.(good := s.good + 1, durable := durable,
           replies := s.replies + [Reply(id, s.ran, true, flush, boundary, durable)])
    else
      match s.sent[s.ran]
      case Append(writes) =>
        t.(failed := true, replies := s.replies + BatchReplies(writes, s.ran, false, s.durable))
      case Io(id, flush, boundary) =>
        t.(failed := true, replies := s.replies + [Reply(id, s.ran, false, flush, boundary, s.durable)])
  }

  datatype Event =
    | Opens | Packs(w: Write) | Seals(delivered: bool)
    | Enqueues(id: nat, flush: bool, sealed: bool, delivered: bool)
    | Pauses(delivered: bool, done: bool) | Resumes(delivered: bool)
    | Runs(ok: bool)
    | Fails                            // the backend fails the image

  function Step(s: State, e: Event): State {
    match e
    case Opens => Open(s)
    case Packs(w) => Packing(s, w)
    case Seals(delivered) => Sealing(s, delivered)
    case Enqueues(id, flush, sealed, delivered) => Queueing(s, id, flush, sealed, delivered)
    case Pauses(delivered, done) => Pausing(s, delivered, done)
    case Resumes(delivered) => s.(paused := s.paused && !delivered)
    case Runs(ok) => Run(s, ok)
    case Fails => s.(failed := true)
  }

  function Exec(s: State, events: seq<Event>): State {
    if events == [] then s else Step(Exec(s, events[..|events| - 1]), events[|events| - 1])
  }

  // ----- errors and who acts on them -----------------------------------------

  /** The call refuses a batch of mutations. */
  predicate Loses(s: State, e: Event) {
    match e
    case Seals(delivered) => SealFails(s, delivered)
    case Enqueues(_, _, sealed, _) => !s.paused && SealFails(s, sealed)
    case Pauses(delivered, _) => !s.paused && SealFails(s, delivered)
    case _ => false
  }

  /** The call returns an error to the backend. */
  predicate Errs(s: State, e: Event) {
    match e
    case Opens => s.paused
    case Packs(_) => s.packing.None? || s.admitted >= U64_MAX
    case Seals(_) => Loses(s, e)
    case Enqueues(_, _, _, delivered) => s.paused || Loses(s, e) || !delivered
    case Pauses(_, done) => !s.paused && (Loses(s, e) || !done)
    case Resumes(delivered) => s.paused && !delivered
    case _ => false
  }

  /** An error has been returned that the backend has not acted on yet. */
  predicate Owes(start: nat, events: seq<Event>) {
    if events == [] then false else
    var before := events[..|events| - 1];
    var e := events[|events| - 1];
    !e.Fails? && (Errs(Exec(Fresh(start), before), e) || Owes(start, before))
  }

  /**
   * The backend fails the image on every error before it calls the frontend
   * again; the worker, a thread of its own, may run in between.
   */
  predicate Serves(start: nat, events: seq<Event>) {
    if events == [] then true else
    var before := events[..|events| - 1];
    var e := events[|events| - 1];
    Serves(start, before) && (Owes(start, before) ==> e.Runs? || e.Fails?)
  }

  /** No batch was refused before command `p` was sent. */
  ghost predicate Unrefused(start: nat, events: seq<Event>, p: nat) {
    forall k | 0 <= k < |events| && |Exec(Fresh(start), events[..k]).sent| <= p ::
      !Loses(Exec(Fresh(start), events[..k]), events[k])
  }

  // ----- what every run keeps ------------------------------------------------

  /** The mutations a run of commands carries. */
  function Carried(commands: seq<Command>): seq<Write> {
    if commands == [] then []
    else
      var last := commands[|commands| - 1];
      Carried(commands[..|commands| - 1]) + if last.Append? then last.writes else []
  }

  function Packed(s: State): seq<Write> { if s.packing.Some? then s.packing.value else [] }

  /** Admitted mutations ahead of command `p`: those sent and those lost. */
  function Ahead(s: State, p: nat): nat
    requires p < |s.sent| == |s.missing|
  {
    |Carried(s.sent[..p])| + s.missing[p]
  }

  /** A batch holds the very next mutations; a read or flush names how many are ahead. */
  ghost predicate PlacedAt(s: State, p: nat)
    requires p < |s.sent| == |s.missing|
  {
    var at := Ahead(s, p);
    at <= |s.order| &&
    match s.sent[p]
    case Append(writes) => writes != [] && at + |writes| <= |s.order| && writes == s.order[at..at + |writes|]
    case Io(_, _, boundary) => boundary == s.start + at
  }

  ghost predicate FrontInv(s: State) {
    && s.admitted == s.start + |s.order|
    && |Carried(s.sent)| + s.lost <= |s.order|
    && Packed(s) == s.order[|Carried(s.sent)| + s.lost..]
    && |s.missing| == |s.sent|
    && (forall p | 0 <= p < |s.sent| :: s.missing[p] <= s.lost)
    && (forall p, q | 0 <= p <= q < |s.sent| :: s.missing[p] <= s.missing[q])
    && (forall p | 0 <= p < |s.sent| :: PlacedAt(s, p))
  }

  ghost predicate ReplyOk(s: State, r: Reply) {
    && r.at < |s.sent|
    && (if s.sent[r.at].Io? then s.sent[r.at] == Io(r.id, r.flush, r.boundary) else !r.flush)
    && (r.ok && r.flush ==> r.at < s.good && r.durable == s.start + |Carried(s.sent[..r.at])| <= s.durable)
  }

  ghost predicate BackInv(s: State) {
    && s.good <= s.ran <= |s.sent|
    && (!s.failed ==> s.good == s.ran)
    && s.start <= s.durable <= s.start + |s.log|
    && s.log == Carried(s.sent[..s.good])
    && (forall i | 0 <= i < |s.replies| :: ReplyOk(s, s.replies[i]))
  }

  ghost predicate Inv(s: State) { FrontInv(s) && BackInv(s) }

  lemma {:induction false} CarriedMore(commands: seq<Command>, c: Command)
    ensures Carried(commands + [c]) == Carried(commands) + if c.Append? then c.writes else []
  {
    assert (commands + [c])[..|commands|] == commands;
  }

  /** What is in order stays so while the order grows. */
  lemma {:induction false} PlacedStays(s: State, t: State, p: nat)
    requires p < |s.sent| == |s.missing| && |t.sent| == |t.missing|
    requires s.sent <= t.sent && s.missing <= t.missing && s.order <= t.order && t.start == s.start && PlacedAt(s, p)
    ensures PlacedAt(t, p)
  {
    assert t.sent[..p] == s.sent[..p];
    hide Carried;
  }

  lemma {:induction false} SendFront(s: State, c: Command, delivered: bool)
    requires s.packing.None? && FrontInv(s.(packing := if c.Append? then Some(c.writes) else None))
    requires if c.Append? then c.writes != [] else c.boundary == s.admitted
    ensures FrontInv(Send(s, c, delivered))
  {
    hide Carried;
    var u := s.(packing := if c.Append? then Some(c.writes) else None);
    var t := Send(s, c, delivered);
    forall p | 0 <= p < |s.sent| ensures PlacedAt(t, p) {
      hide FrontInv;
      assert PlacedAt(u, p) by { hide *; FrontPlaced(u, p); }
      PlacedStays(u, t, p);
    }
    if delivered {
      CarriedMore(s.sent, c);
      assert t.sent[..|s.sent|] == s.sent;
      assert PlacedAt(t, |s.sent|);
    }
  }

  lemma {:induction false} FrontPlaced(s: State, p: nat)
    requires FrontInv(s) && p < |s.sent|
    ensures |s.missing| == |s.sent| && PlacedAt(s, p)
  {
  }

  lemma {:induction false} SendBack(s: State, c: Command, delivered: bool)
    requires BackInv(s)
    ensures BackInv(Send(s, c, delivered))
  {
    var t := Send(s, c, delivered);
    assert t.sent[..s.good] == s.sent[..s.good];
    forall i | 0 <= i < |t.replies| ensures ReplyOk(t, t.replies[i]) {
      assert ReplyOk(s, s.replies[i]);
      assert t.sent[..s.replies[i].at] == s.sent[..s.replies[i].at];
    }
  }

  /** The worker's half looks at nothing of the frontend but what it sent. */
  lemma {:induction false} BackElsewhere(s: State, t: State)
    requires BackInv(s) && (s.failed ==> t.failed)
    requires t == s.(paused := t.paused, rejected := t.rejected, packing := t.packing, order := t.order,
                     admitted := t.admitted, failed := t.failed)
    ensures BackInv(t)
  {
    forall i | 0 <= i < |t.replies| ensures ReplyOk(t, t.replies[i]) {
      assert ReplyOk(s, s.replies[i]);
    }
  }

  /** Changing only what the invariants do not look at. */
  lemma {:induction false} Elsewhere(s: State, t: State)
    requires Inv(s) && Packed(t) == Packed(s) && (s.failed ==> t.failed)
    requires t == s.(paused := t.paused, rejected := t.rejected, packing := t.packing, failed := t.failed)
    ensures Inv(t)
  {
    BackElsewhere(s, t);
    forall p | 0 <= p < |t.sent| ensures PlacedAt(t, p) {
      PlacedStays(s, t, p);
    }
  }

  lemma {:induction false} SealKeeps(s: State, delivered: bool)
    requires Inv(s)
    ensures Inv(Sealing(s, delivered))
    ensures Sealing(s, delivered).packing.None? && Sealing(s, delivered).admitted == s.admitted
  {
    hide Carried;
    if s.packing.Some? && s.packing.value != [] {
      var u := s.(packing := None);
      assert u.(packing := Some(s.packing.value)) == s;
      SendFront(u, Append(s.packing.value), delivered);
      BackElsewhere(s, u);
      SendBack(u, Append(s.packing.value), delivered);
    } else {
      Elsewhere(s, Sealing(s, delivered));
    }
  }

  lemma {:induction false} EnqueueKeeps(s: State, id: nat, flush: bool, sealed: bool, delivered: bool)
    requires Inv(s)
    ensures Inv(Queueing(s, id, flush, sealed, delivered))
  {
    hide Carried, FrontInv, BackInv, Send;
    if s.paused {
      Elsewhere(s, s.(rejected := s.rejected + [id]));
    } else {
      SealKeeps(s, sealed);
      var t := Sealing(s, sealed);
      if SealFails(s, sealed) {
        Elsewhere(t, t.(rejected := t.rejected + [id]));
      } else {
        var c := Io(id, flush, s.admitted);
        assert t.(packing := None) == t;
        SendFront(t, c, delivered);
        SendBack(t, c, delivered);
      }
    }
  }

  lemma {:induction false} PackKeeps(s: State, w: Write)
    requires Inv(s)
    ensures Inv(Packing(s, w))
  {
    hide Carried;
    var t := Packing(s, w);
    BackElsewhere(s, t);
    forall p | 0 <= p < |t.sent| ensures PlacedAt(t, p) {
      PlacedStays(s, t, p);
    }
  }

  lemma {:induction false} RunFront(s: State, ok: bool)
    requires FrontInv(s)
    ensures FrontInv(Run(s, ok))
  {
    hide Carried, Run, PlacedAt;
    var t := Run(s, ok);
    RunElsewhere(s, ok);
    forall p | 0 <= p < |t.sent| ensures PlacedAt(t, p) {
      FrontPlaced(s, p);
      PlacedStays(s, t, p);
    }
  }

  lemma {:induction false} RunElsewhere(s: State, ok: bool)
    ensures var t := Run(s, ok);
      t == s.(ran := t.ran, good := t.good, log := t.log, durable := t.durable, failed := t.failed,
        replies := t.replies)
  {
  }

  lemma {:induction false} RunBack(s: State, ok: bool)
    requires BackInv(s)
    ensures BackInv(Run(s, ok))
  {
    hide Carried;
    var t := Run(s, ok);
    if s.ran < |s.sent| {
      assert s.sent[..s.ran + 1] == s.sent[..s.ran] + [s.sent[s.ran]];
      CarriedMore(s.sent[..s.ran], s.sent[s.ran]);
      forall i | 0 <= i < |t.replies| ensures ReplyOk(t, t.replies[i]) {
        if i < |s.replies| {
          assert ReplyOk(s, s.replies[i]);
        }
      }
    }
  }

  lemma {:induction false} RunKeeps(s: State, ok: bool)
    requires Inv(s)
    ensures Inv(Run(s, ok))
  {
    hide FrontInv, BackInv, Run;
    RunFront(s, ok);
    RunBack(s, ok);
  }

  lemma {:induction false} PauseKeeps(s: State, delivered: bool, done: bool)
    requires Inv(s)
    ensures Inv(Pausing(s, delivered, done))
  {
    hide Inv, Sealing;
    if !s.paused {
      SealKeeps(s, delivered);
      Elsewhere(Sealing(s, delivered), Pausing(s, delivered, done));
    }
  }

  lemma {:induction false} StepKeeps(s: State, e: Event)
    requires Inv(s)
    ensures Inv(Step(s, e))
  {
    hide Inv, Sealing, Packing, Run, Queueing, Pausing;
    match e
    case Opens => Elsewhere(s, Open(s));
    case Packs(w) => PackKeeps(s, w);
    case Seals(delivered) => SealKeeps(s, delivered);
    case Enqueues(id, flush, sealed, delivered) => EnqueueKeeps(s, id, flush, sealed, delivered);
    case Pauses(delivered, done) => PauseKeeps(s, delivered, done);
    case Resumes(delivered) => Elsewhere(s, s.(paused := s.paused && !delivered));
    case Runs(ok) => RunKeeps(s, ok);
    case Fails => Elsewhere(s, s.(failed := true));
  }

  lemma {:induction false} ExecKeeps(start: nat, events: seq<Event>)
    ensures Inv(Exec(Fresh(start), events)) && Exec(Fresh(start), events).start == start
    decreases |events|
  {
    if events != [] {
      hide Inv, Step;
      ExecKeeps(start, events[..|events| - 1]);
      StepKeeps(Exec(Fresh(start), events[..|events| - 1]), events[|events| - 1]);
      StepSends(Exec(Fresh(start), events[..|events| - 1]), events[|events| - 1]);
    }
  }

  // ----- refusals, read off the calls ----------------------------------------

  /** A call that refuses a batch sends nothing, and no other loses any mutation. */
  lemma {:induction false} StepSends(s: State, e: Event)
    ensures var t := Step(s, e);
      && t.start == s.start && s.sent <= t.sent
      && (if Loses(s, e) then t.lost > s.lost && t.sent == s.sent else t.lost == s.lost)
      && (|s.missing| == |s.sent| ==> |t.missing| == |t.sent| && s.missing <= t.missing)
      && (|s.missing| == |s.sent| ==> forall p | |s.sent| <= p < |t.sent| :: t.missing[p] == s.lost)
  {
    match e
    case Enqueues(id, flush, sealed, delivered) =>
      SealSends(s, sealed);
      hide Sealing;
    case Seals(delivered) => SealSends(s, delivered);
    case Pauses(delivered, done) => SealSends(s, delivered);
    case _ =>
  }

  lemma {:induction false} SealSends(s: State, delivered: bool)
    ensures var t := Sealing(s, delivered);
      && t.start == s.start && s.sent <= t.sent
      && (if SealFails(s, delivered) then t.lost > s.lost && t.sent == s.sent else t.lost == s.lost)
      && (|s.missing| == |s.sent| ==> |t.missing| == |t.sent| && s.missing <= t.missing)
      && (|s.missing| == |s.sent| ==> forall p | |s.sent| <= p < |t.sent| :: t.missing[p] == s.lost)
  {
  }

  /** So a command has mutations missing ahead of it exactly when a batch was refused before it. */
  lemma {:induction false} MissingIs(start: nat, events: seq<Event>, p: nat)
    ensures var s := Exec(Fresh(start), events);
      && |s.missing| == |s.sent|
      && (p < |s.sent| ==> (s.missing[p] == 0 <==> Unrefused(start, events, p)))
      && (p >= |s.sent| ==> (s.lost == 0 <==> Unrefused(start, events, p)))
    decreases |events|
  {
    if events != [] {
      var before := events[..|events| - 1];
      var e := events[|events| - 1];
      assert Exec(Fresh(start), events) == Step(Exec(Fresh(start), before), e);
      assert before + [e] == events;
      hide *;
      MissingIs(start, before, p);
      StepSends(Exec(Fresh(start), before), e);
      UnrefusedMore(start, before, e, p);
    }
  }

  lemma {:induction false} UnrefusedMore(start: nat, before: seq<Event>, e: Event, p: nat)
    ensures Unrefused(start, before + [e], p) <==>
      && Unrefused(start, before, p)
      && (|Exec(Fresh(start), before).sent| <= p ==> !Loses(Exec(Fresh(start), before), e))
  {
    hide Exec, Loses;
    var events := before + [e];
    assert events[..|before|] == before;
    forall k | 0 <= k < |before| ensures events[..k] == before[..k] && events[k] == before[k] {
    }
    if Unrefused(start, events, p) {
      assert events[|before|] == e;
      forall k | 0 <= k < |before| && |Exec(Fresh(start), before[..k]).sent| <= p
        ensures !Loses(Exec(Fresh(start), before[..k]), before[k])
      {
        assert events[..k] == before[..k] && events[k] == before[k];
      }
    }
  }

  // ----- what that says ------------------------------------------------------

  /** With nothing missing, the commands carry the mutations in admission order. */
  lemma {:induction false} CarriedInOrder(s: State, p: nat)
    requires FrontInv(s) && p <= |s.sent|
    requires forall q | 0 <= q < p :: s.sent[q].Append? ==> s.missing[q] == 0
    ensures Carried(s.sent[..p]) <= s.order
  {
    if p > 0 {
      CarriedInOrder(s, p - 1);
      assert s.sent[..p] == s.sent[..p - 1] + [s.sent[p - 1]];
      CarriedMore(s.sent[..p - 1], s.sent[p - 1]);
      assert PlacedAt(s, p - 1);
    }
  }

  /**
   * The batches ahead of a read or flush hold exactly the mutations admitted up
   * to its boundary if and only if no batch was refused before it was sent.
   */
  lemma {:induction false} BoundaryExact(start: nat, events: seq<Event>, p: nat)
    requires p < |Exec(Fresh(start), events).sent| && Exec(Fresh(start), events).sent[p].Io?
    ensures var s := Exec(Fresh(start), events);
      && start <= s.sent[p].boundary <= s.admitted == start + |s.order|
      && (Carried(s.sent[..p]) == s.order[..s.sent[p].boundary - start] <==> Unrefused(start, events, p))
  {
    hide Carried, Exec, Unrefused;
    ExecKeeps(start, events);
    MissingIs(start, events, p);
    var s := Exec(Fresh(start), events);
    assert PlacedAt(s, p);
    if s.missing[p] == 0 {
      CarriedInOrder(s, p);
    }
  }

  /**
   * A flush answered Ok covers its boundary if and only if no batch was refused
   * before it was sent.
   */
  lemma {:induction false} FlushExact(start: nat, events: seq<Event>, i: nat)
    requires var s := Exec(Fresh(start), events); i < |s.replies| && s.replies[i].ok && s.replies[i].flush
    ensures var s := Exec(Fresh(start), events); var r := s.replies[i];
      && r.at < |s.sent| && s.sent[r.at] == Io(r.id, true, r.boundary)
      && r.durable <= s.durable <= start + |s.log|
      && (r.boundary <= r.durable <==> Unrefused(start, events, r.at))
  {
    hide Carried, Exec, Unrefused;
    ExecKeeps(start, events);
    var s := Exec(Fresh(start), events);
    assert ReplyOk(s, s.replies[i]);
    MissingIs(start, events, s.replies[i].at);
    assert PlacedAt(s, s.replies[i].at);
  }

  /**
   * Where no two mutations share an id, the log is the mutations in admission
   * order if and only if no batch was refused before one that was logged.
   */
  lemma {:induction false} LogExact(start: nat, events: seq<Event>)
    requires var s := Exec(Fresh(start), events);
      forall i, j | 0 <= i < j < |s.order| :: s.order[i].id != s.order[j].id
    ensures var s := Exec(Fresh(start), events);
      && s.good <= |s.sent|
      && (s.log <= s.order <==> forall p | 0 <= p < s.good && s.sent[p].Append? :: Unrefused(start, events, p))
  {
    hide Carried, Exec, Unrefused;
    ExecKeeps(start, events);
    var s := Exec(Fresh(start), events);
    forall p | 0 <= p < s.good ensures s.missing[p] == 0 <==> Unrefused(start, events, p) {
      MissingIs(start, events, p);
    }
    if forall p | 0 <= p < s.good && s.sent[p].Append? :: s.missing[p] == 0 {
      CarriedInOrder(s, s.good);
    } else {
      var p :| 0 <= p < s.good && s.sent[p].Append? && s.missing[p] != 0;
      OutOfPlace(s, p);
    }
  }

  /** A logged batch with something missing ahead of it is out of its place. */
  lemma {:induction false} OutOfPlace(s: State, p: nat)
    requires Inv(s) && p < s.good && s.sent[p].Append? && s.missing[p] != 0
    requires forall i, j | 0 <= i < j < |s.order| :: s.order[i].id != s.order[j].id
    ensures !(s.log <= s.order)
  {
    assert PlacedAt(s, p);
    assert s.sent[..p + 1] == s.sent[..p] + [s.sent[p]];
    CarriedMore(s.sent[..p], s.sent[p]);
    assert s.sent[..s.good][..p + 1] == s.sent[..p + 1];
    CarriedPrefix(s.sent[..s.good], p + 1);
    hide Carried;
    var n := |Carried(s.sent[..p])|;
    assert s.log[n] == s.sent[p].writes[0] == s.order[n + s.missing[p]];
    assert s.order[n].id != s.order[n + s.missing[p]].id;
  }

  lemma {:induction false} CarriedPrefix(commands: seq<Command>, p: nat)
    requires p <= |commands|
    ensures Carried(commands[..p]) <= Carried(commands)
    decreases |commands|
  {
    if p == |commands| {
      assert commands[..p] == commands;
    } else {
      CarriedPrefix(commands[..|commands| - 1], p);
      assert commands[..|commands| - 1][..p] == commands[..p];
    }
  }

  /**
   * A refused batch, then a flush that gets through: it is answered Ok though the
   * mutation it follows is in no log. No served run has this form.
   */
  lemma {:induction false} RefusedThenFlushed(w: Write)
    ensures var events := [Opens, Packs(w), Seals(false), Enqueues(7, true, true, true), Runs(true)];
      && Exec(Fresh(0), events).replies == [Reply(7, 0, true, true, 1, 0)]
      && Exec(Fresh(0), events).log == [] && Exec(Fresh(0), events).order == [w]
      && !Unrefused(0, events, 0) && !Serves(0, events)
  {
    var e2 := [Opens, Packs(w)];
    var e3 := e2 + [Seals(false)];
    var e4 := e3 + [Enqueues(7, true, true, true)];
    assert [Opens, Packs(w), Seals(false), Enqueues(7, true, true, true), Runs(true)] == e4 + [Runs(true)];
    TwoEvents(Opens, Packs(w));
    hide *;
    ExecMore(0, e2, Seals(false));
    ExecMore(0, e3, Enqueues(7, true, true, true));
    ExecMore(0, e4, Runs(true));
    RefusedSteps(w);
    FlushedSteps(w);
    UnrefusedMore(0, e2, Seals(false), 0);
    UnrefusedMore(0, e3, Enqueues(7, true, true, true), 0);
    UnrefusedMore(0, e4, Runs(true), 0);
  }

  /** The state once the one batch has been refused. */
  function Refused(w: Write): State {
    Fresh(0).(admitted := 1, rejected := [w.id], order := [w], lost := 1)
  }

  lemma {:induction false} RefusedSteps(w: Write)
    ensures var s := Step(Step(Fresh(0), Opens), Packs(w));
      && s.sent == [] && Loses(s, Seals(false)) && Errs(s, Seals(false)) && Step(s, Seals(false)) == Refused(w)
  {
    hide Exec, Owes, Serves, Carried;
    assert Open(Fresh(0)) == Fresh(0).(packing := Some([]));
    assert [] + [w] == [w];
    assert Step(Step(Fresh(0), Opens), Packs(w)) == Fresh(0).(packing := Some([w]), admitted := 1, order := [w]);
    assert Ids([w]) == [w.id];
  }

  lemma {:induction false} FlushedSteps(w: Write)
    ensures var s := Step(Refused(w), Enqueues(7, true, true, true));
      && !Loses(Refused(w), Enqueues(7, true, true, true)) && !Loses(s, Runs(true))
      && Step(s, Runs(true)).replies == [Reply(7, 0, true, true, 1, 0)]
      && Step(s, Runs(true)).log == [] && Step(s, Runs(true)).order == [w]
  {
    hide Exec, Owes, Serves, Carried;
    var s := Step(Refused(w), Enqueues(7, true, true, true));
    assert s == Refused(w).(sent := [Io(7, true, 1)], missing := [1]);
  }

  lemma {:induction false} ExecMore(start: nat, before: seq<Event>, e: Event)
    ensures var s := Exec(Fresh(start), before);
      && Exec(Fresh(start), before + [e]) == Step(s, e)
      && Owes(start, before + [e]) == (!e.Fails? && (Errs(s, e) || Owes(start, before)))
      && Serves(start, before + [e]) == (Serves(start, before) && (Owes(start, before) ==> e.Runs? || e.Fails?))
  {
    assert (before + [e])[..|before|] == before;
  }

  lemma {:induction false} TwoEvents(e: Event, f: Event)
    ensures Exec(Fresh(0), [e, f]) == Step(Step(Fresh(0), e), f)
  {
    assert [e, f] == [] + [e] + [f] && [] + [e] == [e];
    ExecMore(0, [], e);
    ExecMore(0, [e], f);
  }

  // ----- served runs ---------------------------------------------------------

  /** In a served run nothing is sent past a refusal that could still be run well. */
  ghost predicate Guarded(s: State, owes: bool) {
    && |s.missing| == |s.sent|
    && (s.lost > 0 ==> s.failed || owes)
    && (!s.failed ==> forall p | 0 <= p < |s.sent| :: s.missing[p] == 0)
    && (forall p | 0 <= p < s.good && p < |s.sent| :: s.missing[p] == 0)
  }

  lemma {:induction false} StepGuarded(s: State, e: Event, owes: bool)
    requires Inv(s) && Guarded(s, owes) && (owes ==> e.Runs? || e.Fails?)
    ensures Guarded(Step(s, e), !e.Fails? && (Errs(s, e) || owes))
  {
    StepSends(s, e);
    hide FrontInv, PlacedAt, Carried;
    var t := Step(s, e);
    StepFailed(s, e);
  }

  lemma {:induction false} StepFailed(s: State, e: Event)
    ensures s.failed ==> Step(s, e).failed && Step(s, e).good == s.good
    ensures Step(s, e).good != s.good ==> e.Runs? && Step(s, e).good == s.good + 1 && Step(s, e).sent == s.sent
    ensures e.Runs? || e.Fails? ==> Step(s, e).sent == s.sent
    ensures e.Fails? ==> Step(s, e).failed
    ensures Loses(s, e) ==> Errs(s, e)
  {
  }

  lemma {:induction false} ServedGuarded(start: nat, events: seq<Event>)
    requires Serves(start, events)
    ensures Guarded(Exec(Fresh(start), events), Owes(start, events))
    decreases |events|
  {
    if events != [] {
      hide Inv, Guarded, Step, Errs;
      var before := events[..|events| - 1];
      ServedGuarded(start, before);
      ExecKeeps(start, before);
      StepGuarded(Exec(Fresh(start), before), events[|events| - 1], Owes(start, before));
    }
  }

  /** In a served run the log is the admitted mutations in order, failed or not. */
  lemma {:induction false} LogInOrder(start: nat, events: seq<Event>)
    requires Serves(start, events)
    ensures Exec(Fresh(start), events).log <= Exec(Fresh(start), events).order
  {
    hide Carried, Exec, Serves, Owes;
    ServedGuarded(start, events);
    ExecKeeps(start, events);
    CarriedInOrder(Exec(Fresh(start), events), Exec(Fresh(start), events).good);
  }

  /** In a served run a flush answered Ok left every mutation admitted before it durable. */
  lemma {:induction false} FlushCovers(start: nat, events: seq<Event>, i: nat)
    requires Serves(start, events)
    requires var s := Exec(Fresh(start), events); i < |s.replies| && s.replies[i].ok && s.replies[i].flush
    ensures var s := Exec(Fresh(start), events); var r := s.replies[i];
      && start <= r.boundary <= r.durable <= s.durable <= start + |s.log|
      && r.boundary - start <= |s.order| && s.log[..r.boundary - start] == s.order[..r.boundary - start]
  {
    hide Carried, Exec, Serves, Owes, Unrefused;
    LogInOrder(start, events);
    ServedGuarded(start, events);
    ExecKeeps(start, events);
    var s := Exec(Fresh(start), events);
    assert ReplyOk(s, s.replies[i]);
    assert PlacedAt(s, s.replies[i].at);
  }

  // ----- where every request goes --------------------------------------------

  function IdsOf(c: Command): seq<nat> { if c.Append? then Ids(c.writes) else [c.id] }

  function Mailed(commands: seq<Command>): multiset<nat> {
    if commands == [] then multiset{}
    else Mailed(commands[..|commands| - 1]) + multiset(IdsOf(commands[|commands| - 1]))
  }

  function RepliedTo(replies: seq<Reply>): seq<nat> {
    seq(|replies|, i requires 0 <= i < |replies| => replies[i].id)
  }

  /** The requests the backend handed over: mutations packed, reads and flushes enqueued. */
  function Handed(s: State, e: Event): multiset<nat> {
    match e
    case Packs(w) => if s.packing.Some? && s.admitted < U64_MAX then multiset{w.id} else multiset{}
    case Enqueues(id, _, _, _) => multiset{id}
    case _ => multiset{}
  }

  function HandedOver(start: nat, events: seq<Event>): multiset<nat> {
    if events == [] then multiset{} else
    var before := events[..|events| - 1];
    HandedOver(start, before) + Handed(Exec(Fresh(start), before), events[|events| - 1])
  }

  /** Still in the batch, in the mailbox, answered by the worker, or given back. */
  ghost function Whereabouts(s: State): multiset<nat>
    requires s.ran <= |s.sent|
  {
    multiset(Ids(Packed(s))) + (Mailed(s.sent) - Mailed(s.sent[..s.ran])) +
    multiset(RepliedTo(s.replies)) + multiset(s.rejected)
  }

  /** The worker has answered exactly the requests of the commands it ran. */
  ghost predicate AnsweredRan(s: State) {
    s.ran <= |s.sent| && multiset(RepliedTo(s.replies)) == Mailed(s.sent[..s.ran])
  }

  /** Everything handed over is in the batch, was mailed, or was given back. */
  ghost predicate Placed(s: State, handed: multiset<nat>) {
    handed == multiset(Ids(Packed(s))) + Mailed(s.sent) + multiset(s.rejected)
  }

  lemma {:induction false} MailedMore(commands: seq<Command>, c: Command)
    ensures Mailed(commands + [c]) == Mailed(commands) + multiset(IdsOf(c))
  {
    assert (commands + [c])[..|commands|] == commands;
  }

  lemma {:induction false} SendPlaces(s: State, c: Command, delivered: bool)
    ensures var t := Send(s, c, delivered);
      Mailed(t.sent) + multiset(t.rejected) == Mailed(s.sent) + multiset(s.rejected) + multiset(IdsOf(c))
    ensures Send(s, c, delivered).packing == s.packing
  {
    hide Mailed, Ids;
    MailedMore(s.sent, c);
  }

  lemma {:induction false} SendPlaced(s: State, c: Command, delivered: bool, handed: multiset<nat>)
    requires Placed(s, handed)
    ensures Placed(Send(s, c, delivered), handed + multiset(IdsOf(c)))
  {
    hide Mailed, Ids, Send, IdsOf;
    SendPlaces(s, c, delivered);
    var t := Send(s, c, delivered);
    var p, q := multiset(Ids(Packed(s))), multiset(IdsOf(c));
    assert p + (Mailed(s.sent) + multiset(s.rejected) + q) == p + Mailed(s.sent) + multiset(s.rejected) + q;
    assert p + (Mailed(t.sent) + multiset(t.rejected)) == p + Mailed(t.sent) + multiset(t.rejected);
  }

  lemma {:induction false} SealPlaces(s: State, delivered: bool, handed: multiset<nat>)
    requires Placed(s, handed)
    ensures Placed(Sealing(s, delivered), handed) && Packed(Sealing(s, delivered)) == []
  {
    assert Ids([]) == [];
    hide Mailed, Ids, Send;
    if s.packing.Some? && s.packing.value != [] {
      var u := s.(packing := None);
      assert Placed(u, handed - multiset(Ids(s.packing.value)));
      SendPlaced(u, Append(s.packing.value), delivered, handed - multiset(Ids(s.packing.value)));
      SendPlaces(u, Append(s.packing.value), delivered);
    }
  }

  lemma {:induction false} EnqueuePlaces(s: State, e: Event, handed: multiset<nat>)
    requires Placed(s, handed) && e.Enqueues?
    ensures Placed(Step(s, e), handed + multiset{e.id})
  {
    hide Mailed, Ids, Send, Sealing;
    assert multiset([e.id]) == multiset{e.id};
    if s.paused {
      RejectPlaced(s, e.id, handed);
    } else {
      SealPlaces(s, e.sealed, handed);
      var t := Sealing(s, e.sealed);
      RejectPlaced(t, e.id, handed);
      SendPlaced(t, Io(e.id, e.flush, s.admitted), e.delivered, handed);
      hide Placed;
    }
  }

  lemma {:induction false} RejectPlaced(s: State, id: nat, handed: multiset<nat>)
    requires Placed(s, handed)
    ensures Placed(s.(rejected := s.rejected + [id]), handed + multiset{id})
  {
    hide Mailed, Ids;
  }

  lemma {:induction false} IdsMore(writes: seq<Write>, w: Write)
    ensures Ids(writes + [w]) == Ids(writes) + [w.id]
  {
  }

  lemma {:induction false} RunPlaces(s: State, ok: bool)
    ensures var t := Run(s, ok); t.packing == s.packing && t.sent == s.sent && t.rejected == s.rejected
  {
  }

  lemma {:induction false} StepPlaces(s: State, e: Event, handed: multiset<nat>)
    requires Placed(s, handed)
    ensures Placed(Step(s, e), handed + Handed(s, e))
  {
    hide Mailed, Ids, Send, Sealing, Queueing, Run;
    match e
    case Enqueues(_, _, _, _) =>
      hide Step, Placed;
      EnqueuePlaces(s, e, handed);
    case Packs(w) => PackPlaces(s, w, handed);
    case Seals(delivered) => SealPlaces(s, delivered, handed);
    case Pauses(delivered, _) => SealPlaces(s, delivered, handed);
    case Runs(ok) => RunPlaces(s, ok);
    case _ =>
  }

  lemma {:induction false} PackPlaces(s: State, w: Write, handed: multiset<nat>)
    requires Placed(s, handed)
    ensures Placed(Packing(s, w), handed + Handed(s, Packs(w)))
  {
    hide Mailed, Ids;
    if s.packing.Some? {
      IdsMore(s.packing.value, w);
    }
  }

  lemma {:induction false} RepliedMore(a: seq<Reply>, b: seq<Reply>)
    ensures RepliedTo(a + b) == RepliedTo(a) + RepliedTo(b)
  {
  }

  lemma {:induction false} RunAnswers(s: State, ok: bool)
    requires AnsweredRan(s)
    ensures AnsweredRan(Run(s, ok))
  {
    hide Run, Mailed, RepliedTo, Ids;
    if s.ran < |s.sent| {
      var c := s.sent[s.ran];
      RunReplies(s, ok);
      RepliedMore(s.replies, Run(s, ok).replies[|s.replies|..]);
      assert s.sent[..s.ran + 1] == s.sent[..s.ran] + [c];
      MailedMore(s.sent[..s.ran], c);
    } else {
      RunNothing(s, ok);
    }
  }

  lemma {:induction false} RunNothing(s: State, ok: bool)
    requires s.ran >= |s.sent|
    ensures Run(s, ok) == s
  {
  }

  /** The command run next is answered, each of its requests once and by its own id. */
  lemma {:induction false} RunReplies(s: State, ok: bool)
    requires s.ran < |s.sent|
    ensures var t := Run(s, ok);
      && t.ran == s.ran + 1 && t.sent == s.sent && |s.replies| <= |t.replies|
      && t.replies == s.replies + t.replies[|s.replies|..]
      && RepliedTo(t.replies[|s.replies|..]) == IdsOf(s.sent[s.ran])
  {
    var more := match s.sent[s.ran]
      case Append(writes) => BatchReplies(writes, s.ran, !s.failed && ok, s.durable)
      case Io(id, flush, boundary) =>
        [Reply(id, s.ran, !s.failed && ok, flush, boundary,
               if !s.failed && ok && flush then s.start + |s.log| else s.durable)];
    assert Run(s, ok).replies == s.replies + more;
    hide Run;
    assert Run(s, ok).replies[|s.replies|..] == more;
    assert RepliedTo(more) == IdsOf(s.sent[s.ran]);
  }

  lemma {:induction false} StepAnswers(s: State, e: Event)
    requires AnsweredRan(s)
    ensures AnsweredRan(Step(s, e))
  {
    if e.Runs? {
      hide Run, AnsweredRan;
      RunAnswers(s, e.ok);
    } else {
      StepSends(s, e);
      StepQuiet(s, e);
      hide Step, Mailed;
      assert Step(s, e).sent[..s.ran] == s.sent[..s.ran];
    }
  }

  lemma {:induction false} StepQuiet(s: State, e: Event)
    requires !e.Runs?
    ensures Step(s, e).ran == s.ran && Step(s, e).replies == s.replies
  {
  }

  lemma {:induction false} ExecPlaces(start: nat, events: seq<Event>)
    ensures Placed(Exec(Fresh(start), events), HandedOver(start, events))
    ensures AnsweredRan(Exec(Fresh(start), events))
    decreases |events|
  {
    hide Step, Placed, AnsweredRan, Handed;
    if events == [] {
      FreshPlaces(start);
    } else {
      var before, e := events[..|events| - 1], events[|events| - 1];
      ExecPlaces(start, before);
      StepPlaces(Exec(Fresh(start), before), e, HandedOver(start, before));
      StepAnswers(Exec(Fresh(start), before), e);
    }
  }

  lemma {:induction false} FreshPlaces(start: nat)
    ensures Placed(Fresh(start), multiset{}) && AnsweredRan(Fresh(start))
  {
  }

  lemma {:induction false} MailedPrefix(commands: seq<Command>, p: nat)
    requires p <= |commands|
    ensures Mailed(commands[..p]) <= Mailed(commands)
    decreases |commands|
  {
    if p == |commands| {
      assert commands[..p] == commands;
    } else {
      MailedPrefix(commands[..|commands| - 1], p);
      assert commands[..|commands| - 1][..p] == commands[..p];
    }
  }

  /**
   * Over every run each request handed over is in one place, as often as it was
   * handed over: the open batch, the mailbox, the worker's answers or those given
   * back. A batch that has run has answered each of its writes, by its own id.
   */
  lemma {:induction false} NothingLost(start: nat, events: seq<Event>)
    ensures var s := Exec(Fresh(start), events);
      && s.ran <= |s.sent| && HandedOver(start, events) == Whereabouts(s)
      && multiset(RepliedTo(s.replies)) == Mailed(s.sent[..s.ran])
  {
    ExecPlaces(start, events);
    var s := Exec(Fresh(start), events);
    MailedPrefix(s.sent, s.ran);
    hide Exec, HandedOver, Mailed, Ids, RepliedTo;
  }

  /** A completion succeeds exactly if its command ran before the image failed. */
  ghost predicate Graded(s: State) {
    && s.good <= s.ran && (!s.failed ==> s.good == s.ran)
    && (forall i | 0 <= i < |s.replies| :: s.replies[i].at < s.ran && (s.replies[i].ok <==> s.replies[i].at < s.good))
  }

  lemma {:induction false} StepGraded(s: State, e: Event)
    requires Graded(s)
    ensures Graded(Step(s, e))
  {
    if !e.Runs? {
      StepQuiet(s, e);
      StepFailed(s, e);
      hide Step;
    }
  }

  lemma {:induction false} OkExactly(start: nat, events: seq<Event>)
    ensures Graded(Exec(Fresh(start), events))
    decreases |events|
  {
    if events != [] {
      hide Graded, Step;
      OkExactly(start, events[..|events| - 1]);
      StepGraded(Exec(Fresh(start), events[..|events| - 1]), events[|events| - 1]);
    }
  }

  /** An answer to a read or flush names it and its boundary. */
  lemma {:induction false} RepliesEcho(start: nat, events: seq<Event>, i: nat)
    requires i < |Exec(Fresh(start), events).replies|
    ensures var s := Exec(Fresh(start), events); var r := s.replies[i];
      && r.at < |s.sent|
      && if s.sent[r.at].Io? then s.sent[r.at] == Io(r.id, r.flush, r.boundary) else !r.flush
  {
    hide Exec, Carried, FrontInv;
    ExecKeeps(start, events);
    assert ReplyOk(Exec(Fresh(start), events), Exec(Fresh(start), events).replies[i]);
  }

  /** Only a flush whose IO succeeds moves what is durable, and then to all that is logged. */
  lemma {:induction false} DurableExactly(s: State, e: Event)
    ensures Step(s, e).durable ==
      if e.Runs? && e.ok && !s.failed && s.ran < |s.sent| && s.sent[s.ran].Io? && s.sent[s.ran].flush
      then s.start + |s.log| else s.durable
  {
  }

  /** Only the backend, or IO that fails, fails the image. */
  lemma {:induction false} FailsExactly(s: State, e: Event)
    ensures Step(s, e).failed <==> s.failed || e.Fails? || (e.Runs? && !e.ok && s.ran < |s.sent|)
  {
  }

  /** Once a completion has failed, none after it succeeds. */
  ghost predicate Latched(s: State) {
    && (forall i | 0 <= i < |s.replies| :: !s.replies[i].ok ==> s.failed)
    && (forall i, j | 0 <= i < j < |s.replies| :: !s.replies[i].ok ==> !s.replies[j].ok)
  }

  lemma {:induction false} StepLatched(s: State, e: Event)
    requires Latched(s)
    ensures Latched(Step(s, e))
  {
    StepReplies(s, e);
    hide Step;
  }

  lemma {:induction false} StepReplies(s: State, e: Event)
    ensures var t := Step(s, e);
      && s.replies <= t.replies && (s.failed ==> t.failed)
      && (forall i | |s.replies| <= i < |t.replies| :: t.replies[i].ok <==> !t.failed)
  {
    hide Carried, Ids;
  }

  /** In particular no flush succeeds after an append has failed. */
  lemma {:induction false} FailureIsFinal(start: nat, events: seq<Event>, i: nat, j: nat)
    requires i < j < |Exec(Fresh(start), events).replies| && !Exec(Fresh(start), events).replies[i].ok
    ensures !Exec(Fresh(start), events).replies[j].ok
  {
    ExecLatched(start, events);
  }

  lemma {:induction false} ExecLatched(start: nat, events: seq<Event>)
    ensures Latched(Exec(Fresh(start), events))
    decreases |events|
  {
    if events != [] {
      hide Latched, Step;
      ExecLatched(start, events[..|events| - 1]);
      StepLatched(Exec(Fresh(start), events[..|events| - 1]), events[|events| - 1]);
    }
  }

  // ----- the frontend's own state --------------------------------------------

  class Local {
    var admitted: nat
    var packing: Option<seq<Write>>
    var paused: bool
    var mailbox: seq<Command>
    var rejected: seq<nat>
    /** The whole system, of which the frontend is a part. */
    ghost var s: State

    ghost predicate Valid()
      reads this
    {
      && Inv(s)
      && s.admitted == admitted && s.packing == packing && s.paused == paused
      && s.sent == mailbox && s.rejected == rejected
    }

    constructor (start: nat)
      ensures Valid() && s == Fresh(start)
    {
      admitted, packing, paused, mailbox, rejected := start, None, false, [], [];
      s := Fresh(start);
      new;
      ExecKeeps(start, []);
    }

    /** `delivered` says whether the mailbox has room and a reader. */
    method Send(c: Command, delivered: bool) returns (ok: bool)
      modifies this`mailbox, this`rejected
      ensures ok == delivered
      ensures ok ==> mailbox == old(mailbox) + [c] && rejected == old(rejected)
      ensures !ok ==> mailbox == old(mailbox)
      ensures !ok ==> rejected == old(rejected) + if c.Append? then Ids(c.writes) else [c.id]
    {
      if delivered {
        mailbox := mailbox + [c];
        return true;
      }
      match c {
        case Io(id, _, _) => rejected := rejected + [id];
        case Append(writes) =>
          var i := 0;
          while i < |writes|
            invariant i <= |writes| && rejected == old(rejected) + Ids(writes)[..i] && mailbox == old(mailbox)
          {
            rejected := rejected + [writes[i].id];
            i := i + 1;
          }
          assert Ids(writes)[..|writes|] == Ids(writes);
      }
      ok := false;
    }

    method Pack(w: Write) returns (ok: bool)
      requires Valid()
      modifies this
      ensures Valid() && s == Packing(old(s), w)
      ensures ok <==> !Errs(old(s), Packs(w))
      ensures ok <==> old(packing).Some? && old(admitted) < 0xFFFF_FFFF_FFFF_FFFF
      ensures ok ==> packing == Some(old(packing).value + [w]) && admitted == old(admitted) + 1
      ensures !ok ==> packing == old(packing) && admitted == old(admitted)
      ensures mailbox == old(mailbox) && rejected == old(rejected)
    {
      PackKeeps(s, w);
      hide Inv;
      ok := packing.Some? && admitted < U64_MAX;
      if ok {
        packing := Some(packing.value + [w]);
        admitted := admitted + 1;
      }
      s := Packing(s, w);
    }

    /** Hand the batch over, if it holds anything. */
    method Seal(delivered: bool) returns (ok: bool)
      requires Valid()
      modifies this
      ensures Valid() && s == Sealing(old(s), delivered)
      ensures ok <==> !SealFails(old(s), delivered)
      ensures packing.None? && admitted == old(admitted)
      ensures var held := if old(packing).Some? then old(packing).value else [];
        && mailbox == old(mailbox) + (if held != [] && delivered then [Append(held)] else [])
        && rejected == old(rejected) + (if held != [] && !delivered then Ids(held) else [])
    {
      SealKeeps(s, delivered);
      hide Inv;
      ok := true;
      if packing.Some? {
        var writes := packing.value;
        packing := None;
        if writes != [] {
          ok := Send(Append(writes), delivered);
        }
      }
      s := Sealing(s, delivered);
    }

    /** A read or flush, behind everything admitted so far. */
    method Enqueue(id: nat, flush: bool, sealed: bool, delivered: bool) returns (ok: bool)
      requires Valid()
      modifies this
      ensures Valid() && s == Queueing(old(s), id, flush, sealed, delivered)
      ensures ok <==> !Errs(old(s), Enqueues(id, flush, sealed, delivered))
      ensures ok ==> |mailbox| > |old(mailbox)| && mailbox[|mailbox| - 1] == Io(id, flush, old(admitted))
      ensures !ok ==> |rejected| > |old(rejected)| && (rejected[|rejected| - 1] == id)
    {
      EnqueueKeeps(s, id, flush, sealed, delivered);
      hide Inv;
      ghost var s0 := s;
      var c := Io(id, flush, admitted);
      if paused {
        rejected := rejected + [id];
        s := Queueing(s0, id, flush, sealed, delivered);
        return false;
      }
      ok := Seal(sealed);
      if !ok {
        rejected := rejected + [id];
      } else {
        ok := Send(c, delivered);
      }
      s := Queueing(s0, id, flush, sealed, delivered);
    }
  }
}
