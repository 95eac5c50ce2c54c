/**
 * The host disk account: what is on disk, what is promised to live
 * reservations, and the pressure that stops foreground work short of the
 * progress reserve until the disk has drained.
 */
module Space {
  import opened Units

  datatype Limits = Limits(capacity: nat, reserve: nat) {
    predicate Valid() { 0 < reserve < capacity <= U64_MAX }
    /** What foreground work may fill. */
    function Cap(): nat
      requires Valid()
    {
      capacity - reserve
    }
  }

  /** A live reservation. */
  datatype Hold = Hold(remaining: nat, background: bool)

  datatype Account = Account(onDisk: nat, promised: nat, peak: nat, pressured: bool, backgroundActive: bool,
                             rejected: nat, failed: bool, live: map<nat, Hold>) {
    function Used(): nat { onDisk + promised }
  }

  function Min(a: nat, b: nat): nat { if a < b then a else b }
  function Max(a: nat, b: nat): nat { if a > b then a else b }

  /** Below the low watermark, with the reserve intact. */
  predicate Low(l: Limits, used: nat)
    requires l.Valid()
  {
    used < l.Cap() && used * 100 < l.capacity * 60
  }

  function Pressure(l: Limits, a: Account): Account
    requires l.Valid()
  {
    var b := a.(peak := Max(a.peak, Min(a.Used(), U64_MAX)));
    if a.Used() >= l.Cap() then b.(pressured := true)
    else if a.Used() * 100 < l.capacity * 60 then b.(pressured := false)
    else b
  }

  function Opening(l: Limits, onDisk: nat): Account
    requires l.Valid()
  {
    Pressure(l, Account(onDisk, 0, onDisk, false, false, 0, false, map[]))
  }

  // ----- the operations ------------------------------------------------------

  function Limit(l: Limits, background: bool): nat
    requires l.Valid()
  {
    if background then l.capacity else l.Cap()
  }

  predicate Fits(l: Limits, a: Account, bytes: nat, background: bool)
    requires l.Valid()
  {
    bytes <= if a.Used() < Limit(l, background) then Limit(l, background) - a.Used() else 0
  }

  predicate Grants(l: Limits, a: Account, bytes: nat, background: bool)
    requires l.Valid()
  {
    && !a.failed && bytes != 0 && Fits(l, a, bytes, background)
    && (background ==> !a.backgroundActive && bytes <= l.reserve)
    && (!background ==> !a.pressured)
  }

  /** `id` names the reservation if it is granted. */
  function Reserved(l: Limits, a: Account, id: nat, bytes: nat, background: bool): Account
    requires l.Valid()
  {
    if a.failed then a
    else if !Grants(l, a, bytes, background) then
      a.(pressured := a.pressured || (!background && bytes <= l.Cap() && !Fits(l, a, bytes, background)),
         rejected := Min(a.rejected + 1, U64_MAX))
    else
      Pressure(l, a.(promised := a.promised + bytes, backgroundActive := a.backgroundActive || background,
                     live := a.live[id := Hold(bytes, background)]))
  }

  /** A fresh measurement of the filesystem. */
  function Observed(l: Limits, a: Account, onDisk: nat): Account
    requires l.Valid()
  {
    var b := Pressure(l, a.(onDisk := onDisk));
    if b.Used() > l.capacity then b.(failed := true) else b
  }

  /** The owner has finished its IO and measured the result. */
  function Finished(l: Limits, a: Account, id: nat, previous: nat, onDisk: nat): Account
    requires l.Valid() && id in a.live && a.live[id].remaining <= a.promised
  {
    var h := a.live[id];
    var b := Observed(l, a.(promised := a.promised - h.remaining, live := a.live[id := Hold(0, false)],
                           backgroundActive := a.backgroundActive && !h.background), onDisk);
    if onDisk > previous + h.remaining then b.(failed := true) else b
  }

  /** The outcome cannot be measured: the promise stays, the account fails. */
  function Unmeasured(a: Account, id: nat): Account {
    a.(failed := true, live := a.live[id := Hold(0, false)])
  }

  function Dropped(l: Limits, a: Account, id: nat): Account
    requires l.Valid() && id in a.live && a.live[id].remaining <= a.promised
  {
    var h := a.live[id];
    Pressure(l, a.(promised := a.promised - h.remaining, live := a.live - {id},
                   backgroundActive := a.backgroundActive && !h.background))
  }

  // ----- what is promised to whom --------------------------------------------

  ghost function Held(live: map<nat, Hold>): nat {
    if id :| id in live then live[id].remaining + Held(live - {id}) else 0
  }

  lemma {:induction false} HeldTake(live: map<nat, Hold>, id: nat)
    requires id in live
    ensures Held(live) == live[id].remaining + Held(live - {id})
    decreases |live|
  {
    var j :| j in live && Held(live) == live[j].remaining + Held(live - {j});
    if j != id {
      HeldTake(live - {j}, id);
      HeldTake(live - {id}, j);
      assert live - {j} - {id} == live - {id} - {j};
    }
  }

  lemma {:induction false} HeldPut(live: map<nat, Hold>, id: nat, h: Hold)
    ensures Held(live[id := h]) == Held(live - {id}) + h.remaining
  {
    HeldTake(live[id := h], id);
    assert live[id := h] - {id} == live - {id};
  }

  /** No two background reservations are live, and one is just when the account says so. */
  ghost predicate OneBackground(a: Account) {
    && (forall i, j | i in a.live && j in a.live && a.live[i].background && a.live[j].background :: i == j)
    && (a.backgroundActive <==> exists i :: i in a.live && a.live[i].background)
  }

  /** Nothing promised is forgotten; until a failure, nothing else is promised. */
  ghost predicate Kept(l: Limits, a: Account) {
    && l.Valid()
    && Held(a.live) <= a.promised
    && (!a.failed ==> Held(a.live) == a.promised && a.Used() <= l.capacity && OneBackground(a))
  }

  lemma {:induction false} OpeningKept(l: Limits, onDisk: nat)
    requires l.Valid() && onDisk <= l.capacity
    ensures Kept(l, Opening(l, onDisk))
  {
  }

  lemma {:induction false} PressureKept(l: Limits, a: Account)
    requires Kept(l, a)
    ensures Kept(l, Pressure(l, a))
  {
    hide Held;
    assert Pressure(l, a).live == a.live;
  }

  lemma {:induction false} ReserveKept(l: Limits, a: Account, id: nat, bytes: nat, background: bool)
    requires Kept(l, a) && id !in a.live
    ensures Kept(l, Reserved(l, a, id, bytes, background))
  {
    hide Held, Pressure;
    if Grants(l, a, bytes, background) {
      var b := a.(promised := a.promised + bytes, backgroundActive := a.backgroundActive || background,
                  live := a.live[id := Hold(bytes, background)]);
      HeldPut(a.live, id, Hold(bytes, background));
      assert a.live - {id} == a.live;
      assert OneBackground(b) by {
        if background { assert b.live[id].background; }
        if i :| i in a.live && a.live[i].background { assert b.live[i].background; }
      }
      PressureKept(l, b);
    }
  }

  lemma {:induction false} ObserveKept(l: Limits, a: Account, onDisk: nat)
    requires l.Valid() && Held(a.live) <= a.promised
    requires !a.failed ==> Held(a.live) == a.promised && OneBackground(a)
    ensures Kept(l, Observed(l, a, onDisk))
  {
    hide Held;
    var b := Observed(l, a, onDisk);
    assert b.live == a.live;
    assert OneBackground(a) ==> OneBackground(b);
  }

  /** Taking a reservation's background claim away leaves none. */
  lemma {:induction false} Unclaimed(a: Account, b: Account, id: nat)
    requires OneBackground(a) && id in a.live
    requires b.backgroundActive == (a.backgroundActive && !a.live[id].background)
    requires b.live == a.live[id := Hold(0, false)] || b.live == a.live - {id}
    ensures OneBackground(b)
  {
    if i :| i in a.live && a.live[i].background && i != id {
      assert i in b.live && b.live[i].background;
    }
  }

  lemma {:induction false} FinishKept(l: Limits, a: Account, id: nat, previous: nat, onDisk: nat)
    requires Kept(l, a) && id in a.live
    ensures a.live[id].remaining <= a.promised && Kept(l, Finished(l, a, id, previous, onDisk))
  {
    hide Held, OneBackground, Pressure, Observed;
    HeldTake(a.live, id);
    HeldPut(a.live, id, Hold(0, false));
    var h := a.live[id];
    var b := a.(promised := a.promised - h.remaining, live := a.live[id := Hold(0, false)],
                backgroundActive := a.backgroundActive && !h.background);
    if !a.failed { Unclaimed(a, b, id); }
    ObserveKept(l, b, onDisk);
    var c := Observed(l, b, onDisk);
    FailedKept(l, c);
  }

  lemma {:induction false} FailedKept(l: Limits, a: Account)
    requires Kept(l, a)
    ensures Kept(l, a.(failed := true))
  {
    hide Held, OneBackground;
  }

  lemma {:induction false} UnknownKept(l: Limits, a: Account, id: nat)
    requires Kept(l, a) && id in a.live
    ensures Kept(l, Unmeasured(a, id))
  {
    HeldTake(a.live, id);
    HeldPut(a.live, id, Hold(0, false));
  }

  lemma {:induction false} DropKept(l: Limits, a: Account, id: nat)
    requires Kept(l, a) && id in a.live
    ensures a.live[id].remaining <= a.promised && Kept(l, Dropped(l, a, id))
  {
    hide Held, OneBackground, Pressure;
    HeldTake(a.live, id);
    var h := a.live[id];
    var b := a.(promised := a.promised - h.remaining, live := a.live - {id},
                backgroundActive := a.backgroundActive && !h.background);
    if !a.failed { Unclaimed(a, b, id); }
    PressureKept(l, b);
  }

  // ----- runs ----------------------------------------------------------------

  datatype Event =
    | Reserves(id: nat, bytes: nat, background: bool)
    | Observes(onDisk: nat)
    | Finishes(id: nat, previous: nat, onDisk: nat)
    | Unknowns(id: nat)
    | Drops(id: nat)
    | Fails

  function Step(l: Limits, a: Account, e: Event): Account
    requires l.Valid()
  {
    match e
    case Reserves(id, bytes, background) => if id in a.live then a else Reserved(l, a, id, bytes, background)
    case Observes(onDisk) => Observed(l, a, onDisk)
    case Finishes(id, previous, onDisk) =>
      if id in a.live && a.live[id].remaining <= a.promised then Finished(l, a, id, previous, onDisk) else a
    case Unknowns(id) => if id in a.live then Unmeasured(a, id) else a
    case Drops(id) => if id in a.live && a.live[id].remaining <= a.promised then Dropped(l, a, id) else a
    case Fails => a.(failed := true)
  }

  lemma {:induction false} StepKept(l: Limits, a: Account, e: Event)
    requires Kept(l, a)
    ensures Kept(l, Step(l, a, e))
  {
    match e
    case Reserves(id, bytes, background) => if id !in a.live { ReserveKept(l, a, id, bytes, background); }
    case Observes(onDisk) => ObserveKept(l, a, onDisk);
    case Finishes(id, previous, onDisk) => if id in a.live { FinishKept(l, a, id, previous, onDisk); }
    case Unknowns(id) => if id in a.live { UnknownKept(l, a, id); }
    case Drops(id) => if id in a.live { DropKept(l, a, id); }
    case Fails =>
  }

  function Exec(l: Limits, a: Account, events: seq<Event>): Account
    requires l.Valid()
  {
    if events == [] then a else Step(l, Exec(l, a, events[..|events| - 1]), events[|events| - 1])
  }

  /** Over every run: no promise is lost, and until a failure the books are exact. */
  lemma {:induction false} RunKept(l: Limits, a: Account, events: seq<Event>)
    requires Kept(l, a)
    ensures Kept(l, Exec(l, a, events))
    decreases |events|
  {
    hide Step, Kept;
    KeptLimits(l, a);
    if events != [] {
      RunKept(l, a, events[..|events| - 1]);
      StepKept(l, Exec(l, a, events[..|events| - 1]), events[|events| - 1]);
    }
  }

  lemma {:induction false} KeptLimits(l: Limits, a: Account)
    requires Kept(l, a)
    ensures l.Valid()
  {
  }

  /** A foreground grant in this step. */
  predicate Foreground(l: Limits, a: Account, e: Event)
    requires l.Valid()
  {
    e.Reserves? && !e.background && e.id !in a.live && Grants(l, a, e.bytes, false)
  }

  /** Foreground never eats into the reserve. */
  lemma {:induction false} ReserveIntact(l: Limits, a: Account, e: Event)
    requires l.Valid() && Foreground(l, a, e)
    ensures Step(l, a, e).Used() <= l.capacity - l.reserve && !a.pressured
  {
  }

  /** Pressure is given up only on reaching the low watermark. */
  lemma {:induction false} PressureHolds(l: Limits, a: Account, e: Event)
    requires l.Valid() && a.pressured && !Low(l, Step(l, a, e).Used())
    ensures Step(l, a, e).pressured
  {
    hide Held;
  }

  /**
   * Once pressure is set, no foreground reservation is granted until the used
   * bytes have been below both the low watermark and the foreground cap.
   */
  lemma {:induction false} Hysteresis(l: Limits, a: Account, events: seq<Event>)
    requires l.Valid() && a.pressured
    requires forall n | 0 < n <= |events| :: !Low(l, Exec(l, a, events[..n]).Used())
    ensures Exec(l, a, events).pressured
    ensures forall n | 0 <= n < |events| :: !Foreground(l, Exec(l, a, events[..n]), events[n])
    decreases |events|
  {
    hide Step, Low, Foreground;
    if events != [] {
      var before := events[..|events| - 1];
      forall n | 0 <= n <= |before| ensures before[..n] == events[..n] {
      }
      Hysteresis(l, a, before);
      assert events[..|events|] == events;
      PressureHolds(l, Exec(l, a, before), events[|events| - 1]);
      Stopped(l, Exec(l, a, before), events[|events| - 1]);
    }
  }

  lemma {:induction false} Stopped(l: Limits, a: Account, e: Event)
    requires l.Valid() && a.pressured
    ensures !Foreground(l, a, e)
  {
  }

  // ----- when the account is pressured ---------------------------------------

  /** What an update of the flag makes of it: set at the cap, cleared below both marks, else left. */
  predicate Marked(l: Limits, used: nat, before: bool, after: bool) {
    && (used + l.reserve >= l.capacity ==> after)
    && (used + l.reserve < l.capacity && used * 100 < l.capacity * 60 ==> !after)
    && (used + l.reserve < l.capacity && used * 100 >= l.capacity * 60 ==> after == before)
  }

  /** Is `bytes` granted, by the numbers alone? */
  predicate Admits(l: Limits, a: Account, bytes: nat, background: bool) {
    && !a.failed && bytes > 0
    && if background then
         !a.backgroundActive && bytes <= l.reserve && a.onDisk + a.promised + bytes <= l.capacity
       else
         !a.pressured && a.onDisk + a.promised + bytes + l.reserve <= l.capacity
  }

  /** A foreground request that an empty account could take is denied for lack of room. */
  predicate Crowded(l: Limits, a: Account, bytes: nat, background: bool) {
    && !a.failed && !background
    && bytes + l.reserve <= l.capacity && a.onDisk + a.promised + bytes + l.reserve > l.capacity && bytes > 0
  }

  /** The step brings the flag up to date: a grant, a measurement, a finish or a drop. */
  predicate Updates(l: Limits, a: Account, e: Event) {
    match e
    case Reserves(id, bytes, background) => id !in a.live && Admits(l, a, bytes, background)
    case Observes(_) => true
    case Finishes(id, _, _) => id in a.live && a.live[id].remaining <= a.promised
    case Drops(id) => id in a.live && a.live[id].remaining <= a.promised
    case _ => false
  }

  predicate Raises(l: Limits, a: Account, e: Event, used: nat) {
    || (Updates(l, a, e) && used + l.reserve >= l.capacity)
    || (e.Reserves? && e.id !in a.live && Crowded(l, a, e.bytes, e.background))
  }

  predicate Clears(l: Limits, a: Account, e: Event, used: nat) {
    Updates(l, a, e) && used + l.reserve < l.capacity && used * 100 < l.capacity * 60
  }

  lemma {:induction false} GrantsIs(l: Limits, a: Account, bytes: nat, background: bool)
    requires l.Valid()
    ensures Grants(l, a, bytes, background) <==> Admits(l, a, bytes, background)
    ensures !background && bytes <= l.Cap() && !Fits(l, a, bytes, background) && !a.failed <==>
      Crowded(l, a, bytes, background)
  {
  }

  lemma {:induction false} PressureIs(l: Limits, a: Account)
    requires l.Valid()
    ensures var b := Pressure(l, a);
      && b == a.(peak := b.peak, pressured := b.pressured) && b.peak == Max(a.peak, Min(a.onDisk + a.promised, U64_MAX))
      && Marked(l, a.onDisk + a.promised, a.pressured, b.pressured)
  {
  }

  /** A reservation by the numbers. */
  lemma {:induction false} ReservedIs(l: Limits, a: Account, id: nat, bytes: nat, background: bool)
    requires l.Valid()
    ensures var b := Reserved(l, a, id, bytes, background);
      if Admits(l, a, bytes, background) then
        && b.onDisk == a.onDisk && b.promised == a.promised + bytes && b.live == a.live[id := Hold(bytes, background)]
        && b.failed == a.failed && b.rejected == a.rejected
        && Marked(l, b.onDisk + b.promised, a.pressured, b.pressured)
        && b.peak == Max(a.peak, Min(b.onDisk + b.promised, U64_MAX))
      else
        && b == a.(pressured := b.pressured, rejected := b.rejected)
        && b.rejected == (if a.failed then a.rejected else Min(a.rejected + 1, U64_MAX))
        && b.pressured == (a.pressured || Crowded(l, a, bytes, background))
  {
    GrantsIs(l, a, bytes, background);
    hide Pressure, Grants, Fits, Admits, Crowded, Marked;
    PressureIs(l, a.(promised := a.promised + bytes, backgroundActive := a.backgroundActive || background,
                     live := a.live[id := Hold(bytes, background)]));
  }

  lemma {:induction false} FailedDenies(l: Limits, a: Account, id: nat, bytes: nat, background: bool)
    requires l.Valid() && a.failed
    ensures !Admits(l, a, bytes, background) && !Crowded(l, a, bytes, background)
    ensures Reserved(l, a, id, bytes, background) == a
  {
  }

  /** The three ways a reservation goes on a healthy account. */
  lemma {:induction false} DeniedIs(l: Limits, a: Account, id: nat, bytes: nat, background: bool)
    requires l.Valid() && !a.failed
    ensures l.reserve < l.capacity
    ensures var used := a.onDisk + a.promised;
      var limit := if background then l.capacity else l.capacity - l.reserve;
      var room := if used < limit then limit - used else 0;
      var denied := bytes == 0 || bytes > room || (background && (a.backgroundActive || bytes > l.reserve)) ||
                    (!background && a.pressured);
      && (denied <==> !Admits(l, a, bytes, background))
      && (!denied && !background ==> used + bytes <= l.capacity - l.reserve)
      && (!background && bytes <= limit && bytes > room <==> Crowded(l, a, bytes, background))
      && Reserved(l, a, id, bytes, background) ==
         if denied then
           a.(pressured := a.pressured || (!background && bytes <= limit && bytes > room),
              rejected := if a.rejected + 1 < U64_MAX then a.rejected + 1 else U64_MAX)
         else
           Pressure(l, a.(promised := a.promised + bytes, backgroundActive := a.backgroundActive || background,
                          live := a.live[id := Hold(bytes, background)]))
  {
    hide Pressure;
  }

  /** What the flag is after a step, from the numbers after it. */
  ghost predicate Flagged(l: Limits, a: Account, e: Event, b: Account) {
    var used := b.onDisk + b.promised;
    && (Updates(l, a, e) ==> Marked(l, used, a.pressured, b.pressured))
    && (b.pressured <==> Raises(l, a, e, used) || (a.pressured && !Clears(l, a, e, used)))
    && b.peak == if Updates(l, a, e) then Max(a.peak, Min(used, U64_MAX)) else a.peak
  }

  lemma {:induction false} ReserveFlag(l: Limits, a: Account, e: Event)
    requires l.Valid() && e.Reserves?
    ensures Flagged(l, a, e, Step(l, a, e))
  {
    hide Reserved, Admits, Crowded;
    ReservedIs(l, a, e.id, e.bytes, e.background);
    NotBoth(l, a, e.bytes, e.background);
  }

  lemma {:induction false} DropFlag(l: Limits, a: Account, e: Event)
    requires l.Valid() && e.Drops?
    ensures Flagged(l, a, e, Step(l, a, e))
  {
    hide Pressure;
    if e.id in a.live && a.live[e.id].remaining <= a.promised {
      var h := a.live[e.id];
      PressureIs(l, a.(promised := a.promised - h.remaining, live := a.live - {e.id},
                       backgroundActive := a.backgroundActive && !h.background));
    }
  }

  lemma {:induction false} FinishFlag(l: Limits, a: Account, e: Event)
    requires l.Valid() && e.Finishes?
    ensures Flagged(l, a, e, Step(l, a, e))
  {
    hide Pressure;
    if e.id in a.live && a.live[e.id].remaining <= a.promised {
      var h := a.live[e.id];
      PressureIs(l, a.(promised := a.promised - h.remaining, live := a.live[e.id := Hold(0, false)],
                       backgroundActive := a.backgroundActive && !h.background, onDisk := e.onDisk));
    }
  }

  /** Every step sets, clears or leaves the flag as the numbers after it say. */
  lemma {:induction false} StepMarks(l: Limits, a: Account, e: Event)
    requires l.Valid()
    ensures Flagged(l, a, e, Step(l, a, e))
  {
    match e
    case Reserves(_, _, _) =>
      hide Flagged, Step;
      ReserveFlag(l, a, e);
    case Finishes(_, _, _) =>
      hide Flagged, Step;
      FinishFlag(l, a, e);
    case Drops(_) =>
      hide Flagged, Step;
      DropFlag(l, a, e);
    case Observes(onDisk) =>
      hide Pressure;
      PressureIs(l, a.(onDisk := onDisk));
    case _ =>
  }

  lemma {:induction false} NotBoth(l: Limits, a: Account, bytes: nat, background: bool)
    ensures !(Admits(l, a, bytes, background) && Crowded(l, a, bytes, background))
  {
  }

  /** The `n`-th step of a run, `0` being the opening, raised or cleared the flag. */
  predicate RaisedAt(l: Limits, onDisk: nat, events: seq<Event>, n: nat)
    requires l.Valid() && n <= |events|
  {
    if n == 0 then onDisk + l.reserve >= l.capacity else
    var b := Exec(l, Opening(l, onDisk), events[..n]);
    Raises(l, Exec(l, Opening(l, onDisk), events[..n - 1]), events[n - 1], b.onDisk + b.promised)
  }

  predicate ClearedAt(l: Limits, onDisk: nat, events: seq<Event>, n: nat)
    requires l.Valid() && 1 <= n <= |events|
  {
    var b := Exec(l, Opening(l, onDisk), events[..n]);
    Clears(l, Exec(l, Opening(l, onDisk), events[..n - 1]), events[n - 1], b.onDisk + b.promised)
  }

  /** Raised at some step and not cleared at any later one. */
  ghost predicate StillRaised(l: Limits, onDisk: nat, events: seq<Event>)
    requires l.Valid()
  {
    exists n | 0 <= n <= |events| ::
      RaisedAt(l, onDisk, events, n) && forall m | n < m <= |events| :: !ClearedAt(l, onDisk, events, m)
  }

  lemma {:induction false} AtPrefix(l: Limits, onDisk: nat, events: seq<Event>, e: Event, n: nat)
    requires l.Valid() && n <= |events|
    ensures RaisedAt(l, onDisk, events + [e], n) == RaisedAt(l, onDisk, events, n)
    ensures n > 0 ==> ClearedAt(l, onDisk, events + [e], n) == ClearedAt(l, onDisk, events, n)
  {
    assert (events + [e])[..n] == events[..n];
    if n > 0 { assert (events + [e])[..n - 1] == events[..n - 1]; }
    hide Exec, Raises, Clears;
  }

  lemma {:induction false} AtLast(l: Limits, onDisk: nat, events: seq<Event>, e: Event)
    requires l.Valid()
    ensures var a := Exec(l, Opening(l, onDisk), events); var b := Step(l, a, e); var n := |events| + 1;
      && Exec(l, Opening(l, onDisk), events + [e]) == b
      && RaisedAt(l, onDisk, events + [e], n) == Raises(l, a, e, b.onDisk + b.promised)
      && ClearedAt(l, onDisk, events + [e], n) == Clears(l, a, e, b.onDisk + b.promised)
  {
    hide Step, Opening, Raises, Clears;
    var all := events + [e];
    assert all[..|events|] == events && all[..|events| + 1] == all && all[|events|] == e;
  }

  lemma {:induction false} StillMore(l: Limits, onDisk: nat, events: seq<Event>, e: Event)
    requires l.Valid()
    ensures var n := |events| + 1;
      StillRaised(l, onDisk, events + [e]) <==>
        RaisedAt(l, onDisk, events + [e], n) ||
        (StillRaised(l, onDisk, events) && !ClearedAt(l, onDisk, events + [e], n))
  {
    hide RaisedAt, ClearedAt;
    var all := events + [e];
    forall n | 0 <= n <= |events|
      ensures RaisedAt(l, onDisk, all, n) == RaisedAt(l, onDisk, events, n)
      ensures n > 0 ==> ClearedAt(l, onDisk, all, n) == ClearedAt(l, onDisk, events, n)
    {
      AtPrefix(l, onDisk, events, e, n);
    }
    if RaisedAt(l, onDisk, all, |events| + 1) {
      assert RaisedAt(l, onDisk, all, |events| + 1);
    } else if StillRaised(l, onDisk, events) && !ClearedAt(l, onDisk, all, |events| + 1) {
      var n :| 0 <= n <= |events| && RaisedAt(l, onDisk, events, n) &&
        forall m | n < m <= |events| :: !ClearedAt(l, onDisk, events, m);
      assert RaisedAt(l, onDisk, all, n);
    }
  }

  /**
   * Over every run: the account is pressured exactly when, since it was last
   * brought up to date below both marks, it reached the foreground cap or denied
   * for lack of room a request that an empty account could take.
   */
  lemma {:induction false} PressuredExactly(l: Limits, onDisk: nat, events: seq<Event>)
    requires l.Valid()
    ensures Exec(l, Opening(l, onDisk), events).pressured <==> StillRaised(l, onDisk, events)
    decreases |events|
  {
    if events == [] {
      PressureIs(l, Account(onDisk, 0, onDisk, false, false, 0, false, map[]));
      assert RaisedAt(l, onDisk, events, 0) == (onDisk + l.reserve >= l.capacity);
      hide Pressure, RaisedAt;
    } else {
      var before, e := events[..|events| - 1], events[|events| - 1];
      assert before + [e] == events;
      hide *;
      PressuredExactly(l, onDisk, before);
      AtLast(l, onDisk, before, e);
      StillMore(l, onDisk, before, e);
      StepMarks(l, Exec(l, Opening(l, onDisk), before), e);
      FlagIs(l, Exec(l, Opening(l, onDisk), before), e, Step(l, Exec(l, Opening(l, onDisk), before), e));
    }
  }

  lemma {:induction false} FlagIs(l: Limits, a: Account, e: Event, b: Account)
    requires Flagged(l, a, e, b)
    ensures var used := b.onDisk + b.promised;
      b.pressured <==> Raises(l, a, e, used) || (a.pressured && !Clears(l, a, e, used))
  {
  }

  /** What fails the account: too much on disk, output beyond its promise, an outcome unmeasured, or its owner. */
  predicate Breaks(l: Limits, a: Account, e: Event) {
    match e
    case Observes(onDisk) => onDisk + a.promised > l.capacity
    case Finishes(id, previous, onDisk) =>
      && id in a.live && a.live[id].remaining <= a.promised
      && (onDisk + (a.promised - a.live[id].remaining) > l.capacity || onDisk > previous + a.live[id].remaining)
    case Unknowns(id) => id in a.live
    case Fails => true
    case _ => false
  }

  /** And nothing else does. */
  lemma {:induction false} FailsExactly(l: Limits, a: Account, e: Event)
    requires l.Valid()
    ensures Step(l, a, e).failed <==> a.failed || Breaks(l, a, e)
  {
    hide Pressure;
    match e
    case Reserves(id, bytes, background) =>
      hide Reserved, Admits;
      ReservedIs(l, a, id, bytes, background);
    case Observes(onDisk) => PressureIs(l, a.(onDisk := onDisk));
    case Finishes(id, previous, onDisk) =>
      if id in a.live && a.live[id].remaining <= a.promised {
        var h := a.live[id];
        PressureIs(l, a.(promised := a.promised - h.remaining, live := a.live[id := Hold(0, false)],
                         backgroundActive := a.backgroundActive && !h.background, onDisk := onDisk));
      }
    case Drops(id) =>
      if id in a.live && a.live[id].remaining <= a.promised {
        var h := a.live[id];
        PressureIs(l, a.(promised := a.promised - h.remaining, live := a.live - {id},
                         backgroundActive := a.backgroundActive && !h.background));
      }
    case _ =>
  }

  /** Once everything is given back and the disk has drained, foreground work is granted again. */
  lemma {:induction false} DrainsAndGrants(l: Limits, a: Account, onDisk: nat, id: nat, bytes: nat)
    requires l.Valid() && !a.failed && id !in a.live
    requires (onDisk + a.promised) * 100 < l.capacity * 60 && bytes > 0
    requires onDisk + a.promised + bytes + l.reserve <= l.capacity
    ensures var b := Exec(l, a, [Observes(onDisk), Reserves(id, bytes, false)]);
      id in b.live && b.live[id] == Hold(bytes, false) && b.promised == a.promised + bytes && b.onDisk == onDisk
  {
    var events := [Observes(onDisk), Reserves(id, bytes, false)];
    assert events[..1] == [Observes(onDisk)] && events[..1][..0] == [];
    var m := Step(l, a, Observes(onDisk));
    assert Exec(l, a, events[..1]) == m;
    assert Exec(l, a, events) == Step(l, m, Reserves(id, bytes, false));
    PressureIs(l, a.(onDisk := onDisk));
    hide Pressure;
    GrantsIs(l, m, bytes, false);
    PressureIs(l, m.(promised := m.promised + bytes, backgroundActive := m.backgroundActive || false,
                     live := m.live[id := Hold(bytes, false)]));
  }

  // ----- the shared account --------------------------------------------------

  class Shared {
    const limits: Limits
    var a: Account

    constructor (limits: Limits, onDisk: nat)
      requires limits.Valid() && onDisk <= limits.capacity
      ensures this.limits == limits && a == Opening(limits, onDisk) && Kept(limits, a)
    {
      this.limits := limits;
      a := Opening(limits, onDisk);
      new;
      OpeningKept(limits, onDisk);
    }

    method UpdatePressure()
      requires limits.Valid()
      modifies this
      ensures a == Pressure(limits, old(a)) == old(a).(peak := a.peak, pressured := a.pressured)
    {
      var used := a.onDisk + a.promised;
      var shown := if used < U64_MAX then used else U64_MAX;
      if shown > a.peak { a := a.(peak := shown); }
      if used >= limits.capacity - limits.reserve {
        a := a.(pressured := true);
      } else if used * 100 < limits.capacity * 60 {
        a := a.(pressured := false);
      }
    }

    /** A reservation, or a denial that may itself raise pressure. */
    method Reserve(id: nat, bytes: nat, background: bool) returns (granted: bool)
      requires Kept(limits, a) && id !in a.live
      modifies this
      ensures Kept(limits, a) && a == Reserved(limits, old(a), id, bytes, background)
      ensures granted <==> Admits(limits, old(a), bytes, background)
      ensures granted ==> a.promised == old(a).promised + bytes && a.live == old(a).live[id := Hold(bytes, background)]
      ensures granted ==> Marked(limits, a.onDisk + a.promised, old(a).pressured, a.pressured)
      ensures !granted ==> a.live == old(a).live && a.promised == old(a).promised
      ensures a.failed == old(a).failed && a.onDisk == old(a).onDisk
      ensures a.rejected == if granted || old(a).failed then old(a).rejected else Min(old(a).rejected + 1, U64_MAX)
      ensures !granted ==> a.pressured == (old(a).pressured || Crowded(limits, old(a), bytes, background))
      ensures granted && !background ==> a.onDisk + a.promised <= limits.capacity - limits.reserve
    {
      hide *;
      KeptLimits(limits, a);
      ReserveKept(limits, a, id, bytes, background);
      ReservedIs(limits, a, id, bytes, background);
      var used := a.onDisk + a.promised;
      var limit := if background then limits.capacity else limits.capacity - limits.reserve;
      if a.failed {
        FailedDenies(limits, a, id, bytes, background);
        return false;
      }
      var room := if used < limit then limit - used else 0;
      DeniedIs(limits, a, id, bytes, background);
      if bytes == 0 || bytes > room || (background && (a.backgroundActive || bytes > limits.reserve)) ||
        (!background && a.pressured) {
        if !background && bytes <= limit && bytes > room {
          a := a.(pressured := true);
        }
        a := a.(rejected := if a.rejected + 1 < U64_MAX then a.rejected + 1 else U64_MAX);
        return false;
      }
      a := a.(promised := a.promised + bytes, backgroundActive := a.backgroundActive || background,
              live := a.live[id := Hold(bytes, background)]);
      UpdatePressure();
      granted := true;
    }

    method Observe(onDisk: nat) returns (ok: bool)
      requires Kept(limits, a)
      modifies this
      ensures Kept(limits, a) && a == Observed(limits, old(a), onDisk)
      ensures ok <==> onDisk + old(a).promised <= limits.capacity
      ensures a.onDisk == onDisk && Marked(limits, onDisk + old(a).promised, old(a).pressured, a.pressured)
      ensures a.promised == old(a).promised && a.live == old(a).live && (a.failed <==> old(a).failed || !ok)
    {
      PressureIs(limits, a.(onDisk := onDisk));
      ObserveKept(limits, a, onDisk);
      hide Held, OneBackground;
      a := a.(onDisk := onDisk);
      UpdatePressure();
      ok := a.onDisk + a.promised <= limits.capacity;
      if !ok { a := a.(failed := true); }
    }

    /** Excess output is recorded before it fails the account. */
    method Finish(id: nat, previous: nat, onDisk: nat) returns (ok: bool)
      requires Kept(limits, a) && id in a.live
      modifies this
      ensures old(a).live[id].remaining <= old(a).promised
      ensures Kept(limits, a) && a == Finished(limits, old(a), id, previous, onDisk)
      ensures var h := old(a).live[id];
        ok <==> onDisk + (old(a).promised - h.remaining) <= limits.capacity && onDisk <= previous + h.remaining
      ensures a.failed <==> old(a).failed || !ok
      ensures a.onDisk == onDisk && a.promised == old(a).promised - old(a).live[id].remaining
      ensures Marked(limits, a.onDisk + a.promised, old(a).pressured, a.pressured)
    {
      hide Held, OneBackground, Kept, Pressure;
      FinishKept(limits, a, id, previous, onDisk);
      KeptLimits(limits, a);
      var h := a.live[id];
      var grown := if onDisk > previous then onDisk - previous else 0;
      a := a.(onDisk := onDisk, promised := a.promised - h.remaining, live := a.live[id := Hold(0, false)],
              backgroundActive := a.backgroundActive && !h.background);
      PressureIs(limits, a);
      UpdatePressure();
      ok := a.onDisk + a.promised <= limits.capacity;
      if !ok { a := a.(failed := true); }
      if grown > h.remaining {
        a := a.(failed := true);
        ok := false;
      }
    }

    method Unknown(id: nat)
      requires Kept(limits, a) && id in a.live
      modifies this
      ensures Kept(limits, a) && a == Unmeasured(old(a), id)
      ensures a.failed && a.promised == old(a).promised && a.onDisk == old(a).onDisk
      ensures a.live == old(a).live[id := Hold(0, false)]
    {
      UnknownKept(limits, a, id);
      hide Held, OneBackground, Kept;
      a := a.(failed := true);
      a := a.(live := a.live[id := Hold(0, false)]);
    }

    /** Dropping cancels only what was not used. */
    method Drop(id: nat)
      requires Kept(limits, a) && id in a.live
      modifies this
      ensures old(a).live[id].remaining <= old(a).promised
      ensures Kept(limits, a) && a == Dropped(limits, old(a), id)
      ensures a.onDisk == old(a).onDisk && a.promised == old(a).promised - old(a).live[id].remaining
      ensures a.failed == old(a).failed
      ensures a.live == old(a).live - {id} && Marked(limits, a.onDisk + a.promised, old(a).pressured, a.pressured)
    {
      hide Held, OneBackground, Kept, Pressure;
      KeptLimits(limits, a);
      DropKept(limits, a, id);
      var h := a.live[id];
      a := a.(promised := a.promised - h.remaining, live := a.live - {id},
              backgroundActive := a.backgroundActive && !h.background);
      PressureIs(limits, a);
      UpdatePressure();
    }
  }
}
