/**
 * The backend's table of pending requests: admission, completion, the error
 * sweep after a failure, and the drain. Writing a used entry and signalling it
 * is one step that either happens or fails.
 */
module Completions {

  datatype Status = Good | IoError | Unsupported

  datatype Used = Used(id: nat, status: Status)

  /**
   * `pending` maps an id to whether its error has already been published;
   * `failed` is the image's shared failure, `stopped` the backend's own;
   * `mark` is how many used entries there were when the image failed.
   */
  datatype State = State(pending: map<nat, bool>, nextId: nat, entries: seq<Used>, failed: bool, stopped: bool,
    mark: nat)

  const FRESH := State(map[], 0, [], false, false, 0)

  function Fail(s: State): State {
    if s.failed then s else s.(failed := true, mark := |s.entries|)
  }

  /** A used entry. Only an error may be published once the image has failed. */
  function Publish(s: State, id: nat, status: Status, delivered: bool): State {
    if s.failed && status != IoError then s
    else if !delivered then Fail(s)
    else s.(entries := s.entries + [Used(id, status)])
  }

  predicate Publishes(s: State, status: Status, delivered: bool) {
    (!s.failed || status == IoError) && delivered
  }

  /** The event handler fails: nothing more is admitted or completed. */
  function Stop(s: State): State { Fail(s).(stopped := true) }

  /** How a request fares when it is accepted. */
  datatype Entry =
    | Immediate(status: Status, delivered: bool)     // answered on the spot
    | Submitted                                      // storage owns it now
    | Returned                                       // storage owns it but reports an error
    | Refused(delivered: bool)                       // storage did not take it

  function Accept(s: State, e: Entry): State {
    if s.stopped || s.failed then s else
    var id := s.nextId;
    var t := s.(nextId := id + 1);
    match e
    case Immediate(status, delivered) =>
      if Publishes(t, status, delivered) then Publish(t, id, status, delivered)
        else Stop(Publish(t, id, status, delivered))
    case Submitted => t.(pending := t.pending[id := false])
    case Returned => Stop(t.(pending := t.pending[id := false]))
    case Refused(delivered) => Stop(Publish(Fail(t), id, IoError, delivered))
  }

  /** Storage reports the outcome of `id`; `keeps` if an error does not stop this backend. */
  function Complete(s: State, id: nat, ok: bool, delivered: bool, keeps: bool): State {
    if s.stopped then s
    else if id !in s.pending then Stop(s)
    else
      var t := s.(pending := s.pending - {id});
      if s.failed || !ok then
        var u := Publish(t, id, IoError, delivered);
        if delivered && keeps then u else Stop(u)
      else if delivered then Publish(t, id, Good, delivered) else Stop(Publish(t, id, Good, delivered))
  }

  /** One pending request of the error sweep. */
  function Sweep(s: State, id: nat, delivered: bool): State {
    if !s.stopped || id !in s.pending || s.pending[id] || !delivered then s
    else s.(entries := s.entries + [Used(id, IoError)], pending := s.pending[id := true])
  }

  /** One completion of the drain, which no longer touches the guest. */
  function Reap(s: State, id: nat, ok: bool): State {
    var t := if id in s.pending then s.(pending := s.pending - {id}) else s;
    if ok then t else Fail(t)
  }

  datatype Event =
    | Accepts(e: Entry) | Completes(id: nat, ok: bool, delivered: bool, keeps: bool)
    | ImageFails | Stops | Sweeps(id: nat, delivered: bool) | Reaps(id: nat, ok: bool)

  function Step(s: State, e: Event): State {
    match e
    case Accepts(a) => Accept(s, a)
    case Completes(id, ok, delivered, keeps) => Complete(s, id, ok, delivered, keeps)
    case ImageFails => Fail(s)
    case Stops => Stop(s)
    case Sweeps(id, delivered) => Sweep(s, id, delivered)
    case Reaps(id, ok) => Reap(s, id, ok)
  }

  // ----- what every run keeps ------------------------------------------------

  ghost predicate Answered(s: State, id: nat) {
    exists k | 0 <= k < |s.entries| :: s.entries[k].id == id
  }

  ghost predicate Inv(s: State) {
    && (forall i, j | 0 <= i < j < |s.entries| :: s.entries[i].id != s.entries[j].id)
    && (forall i | 0 <= i < |s.entries| :: s.entries[i].id < s.nextId)
    && (forall id | id in s.pending :: id < s.nextId && (s.pending[id] <==> Answered(s, id)))
    && (forall id | id in s.pending && s.pending[id] :: s.stopped)
    && s.mark <= |s.entries|
    && (s.failed ==> forall i | s.mark <= i < |s.entries| :: s.entries[i].status == IoError)
    && (s.stopped ==> s.failed)
  }

  lemma {:induction false} FailKeeps(s: State)
    requires Inv(s)
    ensures Inv(Fail(s)) && Inv(Stop(s))
  {
    assert forall id :: Answered(Fail(s), id) == Answered(s, id) && Answered(Stop(s), id) == Answered(s, id);
  }

  /** A used entry for a request that has none and is not, or no longer, pending. */
  lemma {:induction false} PublishKeeps(s: State, id: nat, status: Status, delivered: bool)
    requires Inv(s) && id < s.nextId && !Answered(s, id) && id !in s.pending
    ensures Inv(Publish(s, id, status, delivered))
  {
    var t := Publish(s, id, status, delivered);
    if t.entries != s.entries {
      forall other | other in t.pending ensures Answered(t, other) == Answered(s, other) {
        AnsweredMore(s, t, Used(id, status), other);
      }
      forall i | 0 <= i < |s.entries| ensures t.entries[i] == s.entries[i] && s.entries[i].id != id {
      }
    } else if t != s {
      FailKeeps(s);
    }
  }

  lemma {:induction false} FreshId(s: State)
    requires Inv(s)
    ensures !Answered(s, s.nextId) && s.nextId !in s.pending
    ensures Inv(s.(nextId := s.nextId + 1))
  {
    var t := s.(nextId := s.nextId + 1);
    assert forall id :: Answered(t, id) == Answered(s, id);
  }

  lemma {:induction false} AddPending(s: State, id: nat)
    requires Inv(s) && id < s.nextId && !Answered(s, id)
    ensures Inv(s.(pending := s.pending[id := false]))
  {
    var t := s.(pending := s.pending[id := false]);
    assert forall x :: Answered(t, x) == Answered(s, x);
  }

  lemma {:induction false} RemovePending(s: State, id: nat)
    requires Inv(s)
    ensures Inv(s.(pending := s.pending - {id}))
    ensures forall x :: Answered(s.(pending := s.pending - {id}), x) == Answered(s, x)
  {
  }

  lemma {:induction false} SameAnswers(s: State, t: State, id: nat)
    requires t.entries == s.entries
    ensures Answered(t, id) == Answered(s, id)
  {
  }

  lemma {:induction false} AcceptKeeps(s: State, e: Entry)
    requires Inv(s)
    ensures Inv(Accept(s, e))
  {
    hide Inv, Answered;
    FreshId(s);
    var id := s.nextId;
    var t := s.(nextId := id + 1);
    SameAnswers(s, t, id);
    match e
    case Immediate(status, delivered) =>
      PublishKeeps(t, id, status, delivered);
      FailKeeps(Publish(t, id, status, delivered));
    case Submitted => AddPending(t, id);
    case Returned =>
      AddPending(t, id);
      FailKeeps(t.(pending := t.pending[id := false]));
    case Refused(delivered) =>
      FailKeeps(t);
      SameAnswers(s, Fail(t), id);
      PublishKeeps(Fail(t), id, IoError, delivered);
      FailKeeps(Publish(Fail(t), id, IoError, delivered));
  }

  lemma {:induction false} CompleteKeeps(s: State, id: nat, ok: bool, delivered: bool, keeps: bool)
    requires Inv(s)
    ensures Inv(Complete(s, id, ok, delivered, keeps))
  {
    FailKeeps(s);
    if !s.stopped && id in s.pending {
      RemovePending(s, id);
      assert !s.pending[id];
      hide Inv;
      var t := s.(pending := s.pending - {id});
      PublishKeeps(t, id, IoError, delivered);
      PublishKeeps(t, id, Good, delivered);
      FailKeeps(Publish(t, id, IoError, delivered));
      FailKeeps(Publish(t, id, Good, delivered));
    }
  }

  lemma {:induction false} AnsweredMore(s: State, t: State, u: Used, other: nat)
    requires t.entries == s.entries + [u] && u.id != other
    ensures Answered(t, other) <==> Answered(s, other)
  {
    if k :| 0 <= k < |s.entries| && s.entries[k].id == other {
      assert t.entries[k].id == other;
    }
  }

  lemma {:induction false} SweepKeeps(s: State, id: nat, delivered: bool)
    requires Inv(s)
    ensures Inv(Sweep(s, id, delivered))
  {
    var t := Sweep(s, id, delivered);
    if t != s {
      assert t.entries[|s.entries|] == Used(id, IoError);
      forall other | other in t.pending ensures t.pending[other] <==> Answered(t, other) {
        if other != id {
          AnsweredMore(s, t, Used(id, IoError), other);
        }
      }
      forall i | 0 <= i < |s.entries| ensures t.entries[i] == s.entries[i] && s.entries[i].id != id {
      }
    }
  }

  lemma {:induction false} ReapKeeps(s: State, id: nat, ok: bool)
    requires Inv(s)
    ensures Inv(Reap(s, id, ok))
  {
    hide Inv;
    RemovePending(s, id);
    FailKeeps(s);
    FailKeeps(s.(pending := s.pending - {id}));
  }

  lemma {:induction false} StepKeeps(s: State, e: Event)
    requires Inv(s)
    ensures Inv(Step(s, e))
  {
    hide Inv, Accept, Complete, Sweep, Reap;
    match e
    case Accepts(a) => AcceptKeeps(s, a);
    case Completes(id, ok, delivered, keeps) => CompleteKeeps(s, id, ok, delivered, keeps);
    case ImageFails => FailKeeps(s);
    case Stops => FailKeeps(s);
    case Sweeps(id, delivered) => SweepKeeps(s, id, delivered);
    case Reaps(id, ok) => ReapKeeps(s, id, ok);
  }

  function Exec(s: State, events: seq<Event>): State {
    if events == [] then s else Step(Exec(s, events[..|events| - 1]), events[|events| - 1])
  }

  lemma {:induction false} ExecKeeps(events: seq<Event>)
    ensures Inv(Exec(FRESH, events))
    decreases |events|
  {
    if events != [] {
      hide Inv, Step;
      ExecKeeps(events[..|events| - 1]);
      StepKeeps(Exec(FRESH, events[..|events| - 1]), events[|events| - 1]);
    }
  }

  /** Each request has at most one used entry, and after a failure they are all errors. */
  lemma {:induction false} AnsweredOnce(events: seq<Event>)
    ensures var s := Exec(FRESH, events);
      && (forall i, j | 0 <= i < j < |s.entries| :: s.entries[i].id != s.entries[j].id)
      && (s.failed ==> forall i | s.mark <= i < |s.entries| :: s.entries[i].status == IoError)
      && (forall id | id in s.pending && !s.pending[id] :: !Answered(s, id))
  {
    ExecKeeps(events);
  }

  /** Used entries are never taken back, and the mark stays where the failure put it. */
  lemma {:induction false} EntriesGrow(s: State, e: Event)
    ensures s.entries <= Step(s, e).entries
    ensures s.failed ==> Step(s, e).failed && Step(s, e).mark == s.mark
    ensures !s.failed && Step(s, e).failed ==> |s.entries| <= Step(s, e).mark
  {
  }

  // ----- where every request goes --------------------------------------------

  /** Requests this event leaves without an answer for good: not delivered, or reaped unanswered. */
  function Abandons(s: State, e: Event): set<nat> {
    match e
    case Accepts(Immediate(_, delivered)) => if !s.stopped && !s.failed && !delivered then {s.nextId} else {}
    case Accepts(Refused(delivered)) => if !s.stopped && !s.failed && !delivered then {s.nextId} else {}
    case Completes(id, _, delivered, _) => if !s.stopped && id in s.pending && !delivered then {id} else {}
    case Reaps(id, _) => if id in s.pending && !s.pending[id] then {id} else {}
    case _ => {}
  }

  function Abandoned(events: seq<Event>): set<nat> {
    if events == [] then {} else
    var before := events[..|events| - 1];
    Abandoned(before) + Abandons(Exec(FRESH, before), events[|events| - 1])
  }

  predicate Waits(s: State, id: nat) { id in s.pending && !s.pending[id] }

  /** A request accepted so far waits, is answered or was abandoned, and only one of these. */
  ghost predicate OneFate(s: State, gone: set<nat>, id: nat) {
    && (id < s.nextId <==> Waits(s, id) || Answered(s, id) || id in gone)
    && !(Waits(s, id) && Answered(s, id)) && !(Waits(s, id) && id in gone) && !(Answered(s, id) && id in gone)
  }

  ghost predicate Fates(s: State, gone: set<nat>) { forall id: nat :: OneFate(s, gone, id) }

  /** What an event does to the used entries and to who waits. */
  ghost predicate Moves(s: State, e: Event, t: State, added: seq<Used>) {
    && t.entries == s.entries + added && |added| <= 1
    && s.nextId <= t.nextId <= s.nextId + 1
    && (forall id: nat | id != s.nextId && added == [] && id !in Abandons(s, e) :: Waits(t, id) == Waits(s, id))
    && (forall id: nat | id in Abandons(s, e) :: !Waits(t, id) && (Waits(s, id) || id == s.nextId < t.nextId))
    && (added == [] || Abandons(s, e) == {})
    && (forall u | u in added ::
          && !Waits(t, u.id) && (Waits(s, u.id) || u.id == s.nextId < t.nextId)
          && forall id: nat | id != u.id && id != s.nextId :: Waits(t, id) == Waits(s, id))
    && (s.nextId < t.nextId ==>
          Waits(t, s.nextId) || s.nextId in Abandons(s, e) || (added != [] && added[0].id == s.nextId))
    && (s.nextId == t.nextId ==> !Waits(t, s.nextId))
  }

  lemma {:induction false} AnsweredBy(s: State, t: State, added: seq<Used>, id: nat)
    requires t.entries == s.entries + added && |added| <= 1
    ensures Answered(t, id) <==> Answered(s, id) || (added != [] && added[0].id == id)
  {
    if added != [] {
      assert t.entries[|s.entries|] == added[0];
    }
    if k :| 0 <= k < |s.entries| && s.entries[k].id == id {
      assert t.entries[k].id == id;
    }
  }

  lemma {:induction false} MovesFates(s: State, e: Event, t: State, added: seq<Used>, gone: set<nat>)
    requires Inv(s) && Fates(s, gone) && Moves(s, e, t, added)
    ensures Fates(t, gone + Abandons(s, e))
  {
    FreshId(s);
    hide Inv;
    forall id: nat ensures OneFate(t, gone + Abandons(s, e), id) {
      assert OneFate(s, gone, id);
      assert OneFate(s, gone, s.nextId);
      AnsweredBy(s, t, added, id);
      hide Answered;
      if added != [] { assert added[0] in added; }
    }
  }

  /** The used entry an event adds, if it does. */
  function Added(s: State, e: Event): seq<Used> {
    match e
    case Accepts(Immediate(status, delivered)) =>
      if !s.stopped && !s.failed && delivered then [Used(s.nextId, status)] else []
    case Accepts(Refused(delivered)) => if !s.stopped && !s.failed && delivered then [Used(s.nextId, IoError)] else []
    case Completes(id, ok, delivered, _) =>
      if !s.stopped && id in s.pending && delivered then [Used(id, if ok && !s.failed then Good else IoError)] else []
    case Sweeps(id, delivered) =>
      if s.stopped && id in s.pending && !s.pending[id] && delivered then [Used(id, IoError)] else []
    case _ => []
  }

  lemma {:induction false} StepMoves(s: State, e: Event)
    requires Inv(s)
    ensures Moves(s, e, Step(s, e), Added(s, e))
  {
    assert s.nextId !in s.pending;
    assert forall id | id in s.pending && s.pending[id] :: s.stopped;
    hide Inv, Answered;
    if e.Accepts? {
      hide Moves;
      AcceptMoves(s, e);
    } else if e.Completes? {
      hide Moves;
      CompleteMoves(s, e);
    }
  }

  lemma {:induction false} AcceptMoves(s: State, e: Event)
    requires e.Accepts? && s.nextId !in s.pending
    ensures Moves(s, e, Step(s, e), Added(s, e))
  {
  }

  lemma {:induction false} CompleteMoves(s: State, e: Event)
    requires e.Completes? && s.nextId !in s.pending && forall id | id in s.pending && s.pending[id] :: s.stopped
    ensures Moves(s, e, Step(s, e), Added(s, e))
  {
  }

  /**
   * Over every run each request accepted is still waiting, has its one used
   * entry, or was abandoned: its delivery failed or it was reaped unanswered.
   */
  lemma {:induction false} EveryRequestOnce(events: seq<Event>)
    ensures Fates(Exec(FRESH, events), Abandoned(events))
    decreases |events|
  {
    hide Inv, Fates, Step, Abandons, Moves, Added;
    if events == [] {
      FreshFates();
    } else {
      var before := events[..|events| - 1];
      var s, e := Exec(FRESH, before), events[|events| - 1];
      ExecKeeps(before);
      EveryRequestOnce(before);
      StepMoves(s, e);
      MovesFates(s, e, Step(s, e), Added(s, e), Abandoned(before));
    }
  }

  lemma {:induction false} StoppedFailed(s: State)
    requires Inv(s)
    ensures s.stopped ==> s.failed
  {
  }

  lemma {:induction false} FreshFates()
    ensures Fates(FRESH, {})
  {
    forall id: nat ensures OneFate(FRESH, {}, id) {
    }
  }

  /** The errors a sweep owes: one for each pending request without any that it reaches. */
  function Errors(pending: map<nat, bool>, reached: set<nat>): set<Used> {
    set id | id in pending && !pending[id] && id in reached :: Used(id, IoError)
  }

  lemma {:induction false} ErrorsNext(pending: map<nat, bool>, reached: set<nat>, left: set<nat>, id: nat)
    requires id in left && id in pending
    ensures Used(id, IoError) !in Errors(pending, reached - left)
    ensures Errors(pending, reached - (left - {id})) ==
      Errors(pending, reached - left) + if !pending[id] && id in reached then {Used(id, IoError)} else {}
  {
    var more := reached - (left - {id});
    forall u | u in Errors(pending, reached - left) ensures u in Errors(pending, more) {
    }
  }

  /** `s` is `s0` with the sweep done but for the requests in `left`. */
  ghost predicate Swept(s0: State, s: State, reached: set<nat>, left: set<nat>) {
    && s == s0.(pending := s.pending, entries := s.entries)
    && s.pending.Keys == s0.pending.Keys
    && (forall id | id in s.pending :: s.pending[id] <==> s0.pending[id] || (id in reached && id !in left))
    && s0.entries <= s.entries
    && multiset(s.entries[|s0.entries|..]) == multiset(Errors(s0.pending, reached - left))
  }

  lemma {:induction false} SweptFirst(s: State, reached: set<nat>)
    ensures Swept(s, s, reached, s.pending.Keys)
  {
    assert Errors(s.pending, reached - s.pending.Keys) == {};
  }

  lemma {:induction false} SweptNext(s0: State, s: State, reached: set<nat>, left: set<nat>, id: nat)
    requires Swept(s0, s, reached, left) && s0.stopped && id in left && id in s.pending
    ensures Swept(s0, Sweep(s, id, id in reached), reached, left - {id})
  {
    hide Errors;
    var t := Sweep(s, id, id in reached);
    ErrorsNext(s0.pending, reached, left, id);
    assert s.pending[id] == s0.pending[id];
    if !s.pending[id] && id in reached {
      assert t.entries[|s0.entries|..] == s.entries[|s0.entries|..] + [Used(id, IoError)];
      assert t.pending.Keys == s.pending.Keys;
    }
  }

  lemma {:induction false} SweptLast(s0: State, s: State, reached: set<nat>)
    requires Swept(s0, s, reached, {})
    ensures s == s0.(pending := s.pending, entries := s.entries) && s.pending.Keys == s0.pending.Keys
    ensures forall id | id in s.pending :: s.pending[id] <==> s0.pending[id] || id in reached
    ensures s0.entries <= s.entries
    ensures multiset(s.entries[|s0.entries|..]) == multiset(Errors(s0.pending, reached))
  {
    assert reached - {} == reached;
  }

  lemma {:induction false} SweepIs(s: State, id: nat, delivered: bool)
    requires s.stopped && id in s.pending
    ensures Sweep(s, id, delivered).stopped && Sweep(s, id, delivered).pending.Keys == s.pending.Keys
    ensures s.pending[id] || !delivered ==> Sweep(s, id, delivered) == s
    ensures !s.pending[id] && delivered ==>
      Sweep(s, id, delivered) == s.(entries := s.entries + [Used(id, IoError)], pending := s.pending[id := true])
  {
  }

  // ----- the sweep and the drain ---------------------------------------------

  class Backend {
    var s: State

    constructor ()
      ensures s == FRESH && Inv(s)
    {
      s := FRESH;
    }

    /** One used entry through the image's gate. */
    method Finish(id: nat, status: Status, delivered: bool) returns (ok: bool)
      modifies this
      ensures s == Publish(old(s), id, status, delivered) && (ok <==> Publishes(old(s), status, delivered))
    {
      if s.failed && status != IoError { return false; }
      if !delivered {
        s := Fail(s);
        return false;
      }
      s := s.(entries := s.entries + [Used(id, status)]);
      ok := true;
    }

    /** A request off the ring: answered at once, or entered as pending before storage sees it. */
    method Enqueue(e: Entry) returns (ok: bool)
      requires Inv(s)
      modifies this
      ensures Inv(s) && s == Accept(old(s), e)
      ensures ok <==> !old(s).stopped && !old(s).failed && (e.Submitted? || (e.Immediate? && e.delivered))
      ensures old(s).stopped || old(s).failed ==> s == old(s)
      ensures !old(s).stopped && !old(s).failed ==>
        && s.nextId == old(s).nextId + 1 && s.stopped == s.failed == !ok
        && s.entries == old(s).entries +
           (match e
            case Immediate(status, delivered) => if delivered then [Used(old(s).nextId, status)] else []
            case Refused(delivered) => if delivered then [Used(old(s).nextId, IoError)] else []
            case _ => [])
        && s.pending == if e.Submitted? || e.Returned? then old(s).pending[old(s).nextId := false] else old(s).pending
    {
      hide Inv;
      AcceptKeeps(s, e);
      FreshId(s);
      if s.stopped || s.failed { return false; }
      var id := s.nextId;
      s := s.(nextId := id + 1);
      match e {
        case Immediate(status, delivered) => ok := Finish(id, status, delivered);
        case Submitted =>
          s := s.(pending := s.pending[id := false]);
          ok := true;
        case Returned =>
          s := s.(pending := s.pending[id := false]);
          ok := false;
        case Refused(delivered) =>
          s := s.(pending := s.pending[id := false]);
          s := s.(pending := s.pending - {id});
          ForgetPending(old(s).(nextId := id + 1), id);
          s := Fail(s);
          ok := Finish(id, IoError, delivered);
          ok := false;
      }
      if !ok { s := Stop(s); }
    }

    /** One report from storage. */
    method CompleteOne(id: nat, good: bool, delivered: bool, keeps: bool) returns (ok: bool)
      requires Inv(s)
      modifies this
      ensures Inv(s) && s == Complete(old(s), id, good, delivered, keeps)
      ensures ok <==>
        !old(s).stopped && id in old(s).pending && delivered && (keeps || (good && !old(s).failed))
      ensures !old(s).stopped && id in old(s).pending ==>
        && s.pending == old(s).pending - {id}
        && s.entries == old(s).entries +
           if delivered then [Used(id, if good && !old(s).failed then Good else IoError)] else []
      ensures old(s).stopped || id !in old(s).pending ==> s.pending == old(s).pending && s.entries == old(s).entries
      ensures s.nextId == old(s).nextId && (s.stopped <==> !ok) && (s.failed <==> old(s).failed || !ok)
    {
      hide Inv;
      CompleteKeeps(s, id, good, delivered, keeps);
      StoppedFailed(s);
      if s.stopped { return false; }
      if id !in s.pending {
        s := Stop(s);
        return false;
      }
      s := s.(pending := s.pending - {id});
      if s.failed || !good {
        ok := Finish(id, IoError, delivered);
        ok := ok && keeps;
      } else {
        ok := Finish(id, Good, delivered);
      }
      if !ok { s := Stop(s); }
    }

    /**
     * After a failure, answer every pending request that can be reached with an
     * error; `reached` says which deliveries succeed. The used entries added are
     * one error for each request not answered before, in whatever order.
     */
    method FailPending(reached: set<nat>)
      requires Inv(s) && s.stopped
      modifies this
      ensures Inv(s) && s == old(s).(pending := s.pending, entries := s.entries)
      ensures s.pending.Keys == old(s).pending.Keys
      ensures forall id | id in s.pending :: s.pending[id] <==> old(s).pending[id] || id in reached
      ensures old(s).entries <= s.entries
      ensures multiset(s.entries[|old(s).entries|..]) == multiset(Errors(old(s).pending, reached))
    {
      hide *;
      var left := s.pending.Keys;
      SweptFirst(s, reached);
      while left != {}
        invariant Inv(s) && Swept(old(s), s, reached, left) && s.stopped && left <= s.pending.Keys
        decreases |left|
      {
        var id :| id in left;
        SweepKeeps(s, id, id in reached);
        SweptNext(old(s), s, reached, left, id);
        SweepIs(s, id, id in reached);
        if !s.pending[id] && id in reached {
          s := s.(entries := s.entries + [Used(id, IoError)], pending := s.pending[id := true]);
        }
        left := left - {id};
      }
      SweptLast(old(s), s, reached);
    }

    /**
     * Reap what storage still owns, without touching the guest. `outcomes` are
     * its remaining reports; the drain succeeds just when the first of them are
     * one for each pending request, and every error among those fails the image.
     */
    method Drain(outcomes: seq<(nat, bool)>) returns (ok: bool)
      requires Inv(s)
      modifies this
      ensures Inv(s) && s.entries == old(s).entries && s.nextId == old(s).nextId && s.stopped == old(s).stopped
      ensures ok <==> exists n | 0 <= n <= |outcomes| :: Reports(outcomes, n, old(s).pending.Keys)
      ensures ok ==> s.pending == map[] && exists n | 0 <= n <= |outcomes| ::
        Reports(outcomes, n, old(s).pending.Keys) && (s.failed <==> old(s).failed || Failures(outcomes, n))
      ensures s.pending.Keys <= old(s).pending.Keys
    {
      hide Inv;
      var i := 0;
      ghost var keys := s.pending.Keys;
      while s.pending != map[]
        invariant i <= |outcomes| && Inv(s) && s == old(s).(pending := s.pending, failed := s.failed, mark := s.mark)
        invariant Reports(outcomes, i, keys - s.pending.Keys) && s.pending.Keys <= keys
        invariant s.failed <==> old(s).failed || Failures(outcomes, i)
        decreases |outcomes| - i
      {
        assert s.pending.Keys != {};
        if i == |outcomes| {
          NotYet(outcomes, i, keys, s.pending.Keys);
          FailKeeps(s);
          s := Fail(s);
          return false;
        }
        var (id, good) := outcomes[i];
        if id !in s.pending {
          Stray(outcomes, i, keys, s.pending.Keys);
          return false;
        }
        ReapKeeps(s, id, good);
        ReportMore(outcomes, i, keys - s.pending.Keys);
        assert keys - (s.pending - {id}).Keys == (keys - s.pending.Keys) + {id};
        s := s.(pending := s.pending - {id});
        if !good { s := Fail(s); }
        i := i + 1;
      }
      assert keys - s.pending.Keys == keys;
      ok := true;
    }
  }

  /** The first `n` reports name each of `keys` once and nothing else. */
  ghost predicate Reports(outcomes: seq<(nat, bool)>, n: nat, keys: set<nat>)
    requires n <= |outcomes|
  {
    && (forall i, j | 0 <= i < j < n :: outcomes[i].0 != outcomes[j].0)
    && keys == set i | 0 <= i < n :: outcomes[i].0
  }

  predicate Failures(outcomes: seq<(nat, bool)>, n: nat)
    requires n <= |outcomes|
  {
    exists i | 0 <= i < n :: !outcomes[i].1
  }

  lemma {:induction false} ReportMore(outcomes: seq<(nat, bool)>, i: nat, keys: set<nat>)
    requires i < |outcomes| && Reports(outcomes, i, keys) && outcomes[i].0 !in keys
    ensures Reports(outcomes, i + 1, keys + {outcomes[i].0})
  {
  }

  /** Before all are reaped no number of reports accounts for all. */
  lemma {:induction false} NotYet(outcomes: seq<(nat, bool)>, i: nat, keys: set<nat>, left: set<nat>)
    requires i <= |outcomes| && Reports(outcomes, i, keys - left) && left <= keys && left != {}
    ensures forall n | 0 <= n <= i :: !Reports(outcomes, n, keys)
  {
    var id :| id in left;
    forall n | 0 <= n <= i ensures !Reports(outcomes, n, keys) {
      assert forall k | 0 <= k < n :: outcomes[k].0 in keys - left;
      assert id !in set k | 0 <= k < n :: outcomes[k].0;
    }
  }

  /** A report for a request that is not pending, or no longer. */
  lemma {:induction false} Stray(outcomes: seq<(nat, bool)>, i: nat, keys: set<nat>, left: set<nat>)
    requires i < |outcomes| && Reports(outcomes, i, keys - left) && left <= keys && left != {}
    requires outcomes[i].0 !in left
    ensures forall n | 0 <= n <= |outcomes| :: !Reports(outcomes, n, keys)
  {
    NotYet(outcomes, i, keys, left);
    var id := outcomes[i].0;
    forall n | i < n <= |outcomes| ensures !Reports(outcomes, n, keys) {
      assert id in set k | 0 <= k < n :: outcomes[k].0;
      if id in keys {
        assert id in keys - left;
        var k :| 0 <= k < i && outcomes[k].0 == id;
      }
    }
  }

  lemma {:induction false} ForgetPending(s: State, id: nat)
    requires id !in s.pending
    ensures s.pending[id := false] - {id} == s.pending
  {
  }
}
