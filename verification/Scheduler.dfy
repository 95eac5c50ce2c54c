/**
 * The bulk IO scheduler: one submission opportunity at a time, round robin among
 * ready images, every fourth opportunity offered to background work first.
 */
module Scheduler {
  import opened Units

  datatype Choice = Demand(image: nat) | Background

  datatype Counters = Counters(demand: nat, background: nat, borrowedDemand: nat, borrowedBackground: nat,
                               demandBytes: nat, backgroundBytes: nat)

  datatype State = State(ready: seq<bool>, next: nat, opportunity: nat, background: bool, counters: Counters) {
    predicate Valid() { next < |ready| && opportunity < 4 }
  }

  /** Images from `from` on, wrapping: how far on `i` is. */
  function Distance(n: nat, from: nat, i: nat): (d: nat)
    requires from < n && i < n
    ensures d < n
  {
    if from <= i then i - from else i + n - from
  }

  /** The first ready image at or after `next`, if any. */
  ghost predicate First(s: State, i: nat)
    requires s.Valid()
  {
    && i < |s.ready| && s.ready[i]
    && forall j | 0 <= j < |s.ready| && s.ready[j] :: Distance(|s.ready|, s.next, i) <= Distance(|s.ready|, s.next, j)
  }

  function Index(n: nat, from: nat, d: nat): (i: nat)
    requires from < n && d < n
    ensures i < n && Distance(n, from, i) == d
  {
    if from + d < n then from + d else from + d - n
  }

  lemma {:induction false} IndexBack(n: nat, from: nat, i: nat)
    requires from < n && i < n
    ensures Index(n, from, Distance(n, from, i)) == i
  {
  }

  /** The wrapped search, from the `d`-th image on. */
  function Search(s: State, d: nat): Option<nat>
    requires s.Valid() && d <= |s.ready|
    decreases |s.ready| - d
  {
    if d == |s.ready| then None
    else if s.ready[Index(|s.ready|, s.next, d)] then Some(Index(|s.ready|, s.next, d))
    else Search(s, d + 1)
  }

  function Selected(s: State): Option<Choice>
    requires s.Valid()
  {
    var demand := Search(s, 0);
    if s.background && (s.opportunity == 0 || demand.None?) then Some(Background)
    else match demand case None => None case Some(i) => Some(Demand(i))
  }

  lemma {:induction false} SearchIs(s: State, d: nat)
    requires s.Valid() && d <= |s.ready|
    requires forall j | 0 <= j < |s.ready| && s.ready[j] :: Distance(|s.ready|, s.next, j) >= d
    ensures match Search(s, d) case Some(i) => First(s, i) case None => forall j | 0 <= j < |s.ready| :: !s.ready[j]
    decreases |s.ready| - d
  {
    var n := |s.ready|;
    if d < n && !s.ready[Index(n, s.next, d)] {
      forall j | 0 <= j < n && s.ready[j] ensures Distance(n, s.next, j) >= d + 1 {
        IndexBack(n, s.next, j);
      }
      SearchIs(s, d + 1);
    }
  }

  /** No image is ready. */
  predicate Quiet(s: State) { forall j | 0 <= j < |s.ready| :: !s.ready[j] }

  /** Whose turn it is: background's on its own opportunity or an idle one, else the nearest ready image's. */
  lemma {:induction false} SelectedExactly(s: State)
    requires s.Valid()
    ensures Selected(s) == Some(Background) <==> s.background && (s.opportunity == 0 || Quiet(s))
    ensures forall i: nat :: Selected(s) == Some(Demand(i)) <==> First(s, i) && !(s.background && s.opportunity == 0)
    ensures Selected(s) == None <==> !s.background && Quiet(s)
  {
    SearchIs(s, 0);
    hide Search;
    if Search(s, 0).Some? {
      forall i: nat | First(s, i) ensures i == Search(s, 0).value {
        OneFirst(s, i, Search(s, 0).value);
      }
    }
  }

  lemma {:induction false} OneFirst(s: State, i: nat, j: nat)
    requires s.Valid() && First(s, i) && First(s, j)
    ensures i == j
  {
  }

  function Grant(s: State, choice: Choice, bytes: nat): State
    requires s.Valid() && (choice.Demand? ==> choice.image < |s.ready|)
  {
    var c := s.counters;
    var after :=
      match choice
      case Demand(i) =>
        s.(ready := s.ready[i := false], next := if i + 1 == |s.ready| then 0 else i + 1,
           counters := c.(demand := c.demand + 1, demandBytes := c.demandBytes + bytes,
                          borrowedDemand := c.borrowedDemand + if s.opportunity == 0 then 1 else 0))
      case Background =>
        s.(background := false,
           counters := c.(background := c.background + 1, backgroundBytes := c.backgroundBytes + bytes,
                          borrowedBackground := c.borrowedBackground + if s.opportunity != 0 then 1 else 0));
    after.(opportunity := if s.opportunity == 3 then 0 else s.opportunity + 1)
  }

  /**
   * What a grant means for the images: the one selected goes to the back of the
   * round, nobody ready was passed over, and everyone who waits moves up by the
   * same number of places, so their order among themselves is kept.
   */
  lemma {:induction false} GrantRotates(s: State, i: nat, bytes: nat)
    requires s.Valid() && Selected(s) == Some(Demand(i))
    ensures i < |s.ready| && s.ready[i]
    ensures var t := Grant(s, Demand(i), bytes); var n := |s.ready|;
      && t.Valid() && |t.ready| == n && Distance(n, t.next, i) == n - 1
      && (forall j | 0 <= j < n && j != i && s.ready[j] ::
            t.ready[j] && Distance(n, t.next, j) + Distance(n, s.next, i) + 1 == Distance(n, s.next, j))
      && (forall j | 0 <= j < n && Distance(n, s.next, j) < Distance(n, s.next, i) :: !s.ready[j])
      && (s.background ==> t.background && s.opportunity != 0)
  {
    SearchIs(s, 0);
    hide Search;
  }

  /** And for background work: it took its own opportunity, or nobody else wanted this one. */
  lemma {:induction false} GrantYields(s: State, bytes: nat)
    requires s.Valid() && Selected(s) == Some(Background)
    ensures s.opportunity == 0 || forall j | 0 <= j < |s.ready| :: !s.ready[j]
    ensures var t := Grant(s, Background, bytes);
      t.Valid() && t.ready == s.ready && t.next == s.next && !t.background
  {
    SearchIs(s, 0);
    hide Search;
  }

  // ----- runs ----------------------------------------------------------------

  datatype Event =
    | Ready(image: nat, ready: bool)
    | Take(image: nat, bytes: nat, more: bool)
    | Ask                       // a background owner starts to wait
    | Poll(bytes: nat)          // and looks whether it is its turn
    | Leave                     // or gives up

  predicate Takes(s: State, e: Event)
    requires s.Valid()
  {
    e.Take? && e.image < |s.ready| && Selected(s) == Some(Demand(e.image))
  }

  predicate Polls(s: State, e: Event)
    requires s.Valid()
  {
    e.Poll? && s.background && Selected(s) == Some(Background)
  }

  function Step(s: State, e: Event): (t: State)
    requires s.Valid()
    ensures t.Valid() && |t.ready| == |s.ready|
  {
    match e
    case Ready(i, r) => if i < |s.ready| then s.(ready := s.ready[i := r]) else s
    case Take(i, bytes, more) =>
      if Takes(s, e) then var t := Grant(s, Demand(i), bytes); t.(ready := t.ready[i := more]) else s
    case Ask => s.(background := true)
    case Poll(bytes) => if Polls(s, e) then Grant(s, Background, bytes) else s
    case Leave => s.(background := false)
  }

  function Exec(s: State, events: seq<Event>): (t: State)
    requires s.Valid()
    ensures t.Valid() && |t.ready| == |s.ready|
  {
    if events == [] then s else Step(Exec(s, events[..|events| - 1]), events[|events| - 1])
  }

  /** Grants a run made. */
  function Demands(s: State, events: seq<Event>): nat
    requires s.Valid()
  {
    if events == [] then 0 else
    var before := events[..|events| - 1];
    Demands(s, before) + if Takes(Exec(s, before), events[|events| - 1]) then 1 else 0
  }

  function Backgrounds(s: State, events: seq<Event>): nat
    requires s.Valid()
  {
    if events == [] then 0 else
    var before := events[..|events| - 1];
    Backgrounds(s, before) + if Polls(Exec(s, before), events[|events| - 1]) then 1 else 0
  }

  /** Image `i` stays ready and is not itself granted. */
  ghost predicate Waits(s: State, events: seq<Event>, i: nat)
    requires s.Valid() && i < |s.ready|
  {
    && (forall n | 0 <= n <= |events| :: Exec(s, events[..n]).ready[i])
    && (forall n | 0 <= n < |events| ::
         !(events[n].Take? && events[n].image == i && Takes(Exec(s, events[..n]), events[n])))
  }

  lemma {:induction false} WaitsPrefix(s: State, events: seq<Event>, i: nat)
    requires s.Valid() && i < |s.ready| && Waits(s, events, i) && events != []
    ensures Waits(s, events[..|events| - 1], i)
    ensures var t := Exec(s, events[..|events| - 1]); var e := events[|events| - 1];
      t.ready[i] && !(e.Take? && e.image == i && Takes(t, e))
  {
    var before := events[..|events| - 1];
    forall n | 0 <= n <= |before| ensures before[..n] == events[..n] {
    }
    assert events[..|events| - 1] == before;
  }

  lemma {:induction false} ReadyIsSelected(s: State, i: nat)
    requires s.Valid() && i < |s.ready| && s.ready[i]
    ensures Search(s, 0).Some? && First(s, Search(s, 0).value)
    ensures Selected(s).Some? && (Selected(s) == Some(Background) ==> s.opportunity == 0)
  {
    SearchIs(s, 0);
  }

  /** A grant to another image brings the round robin nearer. */
  lemma {:induction false} Nearer(s: State, e: Event, i: nat)
    requires s.Valid() && i < |s.ready| && s.ready[i] && Takes(s, e) && e.image != i
    ensures Distance(|s.ready|, Step(s, e).next, i) < Distance(|s.ready|, s.next, i)
    ensures Step(s, e).opportunity == if s.opportunity == 3 then 0 else s.opportunity + 1
  {
    ReadyIsSelected(s, i);
    hide Search;
  }

  lemma {:induction false} NotNearer(s: State, e: Event, i: nat)
    requires s.Valid() && i < |s.ready| && s.ready[i] && !Takes(s, e)
    ensures Step(s, e).next == s.next
    ensures Polls(s, e) ==> s.opportunity == 0 && Step(s, e).opportunity == 1
    ensures !Polls(s, e) ==> Step(s, e).opportunity == s.opportunity
  {
    ReadyIsSelected(s, i);
    hide Search;
  }

  /** Background grants are spaced by three demands: the slack left at each opportunity. */
  function Slack(opportunity: nat): nat {
    if opportunity == 0 then 0 else if opportunity <= 3 then 4 - opportunity else 0
  }

  lemma {:induction false} WaitBudget(s: State, events: seq<Event>, i: nat)
    requires s.Valid() && i < |s.ready| && Waits(s, events, i)
    ensures var t := Exec(s, events);
      && Demands(s, events) + Distance(|s.ready|, t.next, i) <= Distance(|s.ready|, s.next, i)
      && 3 * Backgrounds(s, events) <= Demands(s, events) + Slack(t.opportunity)
    decreases |events|
  {
    hide Step, Takes, Polls, Waits, Selected;
    if events != [] {
      var before := events[..|events| - 1];
      var e := events[|events| - 1];
      WaitsPrefix(s, events, i);
      WaitBudget(s, before, i);
      var t := Exec(s, before);
      TakesImage(t, e);
      if Takes(t, e) {
        Nearer(t, e, i);
      } else {
        NotNearer(t, e, i);
      }
    }
  }

  lemma {:induction false} TakesImage(s: State, e: Event)
    requires s.Valid()
    ensures Takes(s, e) ==> e.Take? && !Polls(s, e)
  {
  }

  /**
   * While image `i` waits, at most `N - 1` demand grants go to others, and all
   * grants together number at most `N - 1` and a third of `N`, rounded up.
   */
  lemma {:induction false} BoundedWait(s: State, events: seq<Event>, i: nat)
    requires s.Valid() && i < |s.ready| && Waits(s, events, i)
    ensures var n := |s.ready|;
      && Demands(s, events) <= n - 1
      && Demands(s, events) + Backgrounds(s, events) <= (n - 1) + (n + 2) / 3
  {
    WaitBudget(s, events, i);
  }

  /** A background owner keeps waiting and is not granted. */
  ghost predicate OwnerWaits(s: State, events: seq<Event>)
    requires s.Valid()
  {
    && (forall n | 0 <= n <= |events| :: Exec(s, events[..n]).background)
    && (forall n | 0 <= n < |events| :: !Polls(Exec(s, events[..n]), events[n]))
  }

  lemma {:induction false} OwnerPrefix(s: State, events: seq<Event>)
    requires s.Valid() && OwnerWaits(s, events) && events != []
    ensures OwnerWaits(s, events[..|events| - 1])
    ensures var t := Exec(s, events[..|events| - 1]); t.background && !Polls(t, events[|events| - 1])
  {
    var before := events[..|events| - 1];
    forall n | 0 <= n <= |before| ensures before[..n] == events[..n] {
    }
  }

  /** A demand overtakes a waiting owner only off its opportunity. */
  lemma {:induction false} Overtakes(s: State, e: Event)
    requires s.Valid() && s.background && !Polls(s, e)
    ensures Takes(s, e) ==> s.opportunity != 0
    ensures Step(s, e).opportunity == if !Takes(s, e) then s.opportunity else if s.opportunity == 3 then 0
      else s.opportunity + 1
  {
  }

  /** At most three demand grants overtake it. */
  lemma {:induction false} OvertakenThrice(s: State, events: seq<Event>)
    requires s.Valid() && OwnerWaits(s, events)
    ensures Demands(s, events) + Slack(Exec(s, events).opportunity) <= Slack(s.opportunity) <= 3
    decreases |events|
  {
    hide Step, Takes, Polls, OwnerWaits, Selected;
    if events != [] {
      var before := events[..|events| - 1];
      OwnerPrefix(s, events);
      OvertakenThrice(s, before);
      Overtakes(Exec(s, before), events[|events| - 1]);
    }
  }

  // ----- accounting ----------------------------------------------------------

  function Total(c: Counters): nat { c.demand + c.background }

  /** Every fourth grant falls on background's opportunity, and is counted there. */
  predicate Booked(s: State) {
    var c := s.counters;
    && s.opportunity == Total(c) % 4
    && c.borrowedBackground <= c.background
    && c.borrowedDemand + (c.background - c.borrowedBackground) == (Total(c) + 3) / 4
  }

  lemma {:induction false} StepBooked(s: State, e: Event)
    requires s.Valid() && Booked(s)
    ensures Booked(Step(s, e))
  {
    hide Search;
  }

  function Fresh(images: nat): State {
    State(seq(images, _ => false), 0, 0, false, Counters(0, 0, 0, 0, 0, 0))
  }

  lemma {:induction false} RunBooked(images: nat, events: seq<Event>)
    requires images > 0
    ensures Booked(Exec(Fresh(images), events))
    decreases |events|
  {
    hide Step;
    if events != [] {
      RunBooked(images, events[..|events| - 1]);
      StepBooked(Exec(Fresh(images), events[..|events| - 1]), events[|events| - 1]);
    }
  }

  /** Bytes the grants of a run asked for. */
  function Asked(s: State, events: seq<Event>, background: bool): nat
    requires s.Valid()
  {
    if events == [] then 0 else
    var before, e := events[..|events| - 1], events[|events| - 1];
    var t := Exec(s, before);
    Asked(s, before, background) +
      if !background && Takes(t, e) then e.bytes else if background && Polls(t, e) then e.bytes else 0
  }

  /** The counters are those of the grants made, in number and in bytes. */
  lemma {:induction false} RunCounted(s: State, events: seq<Event>)
    requires s.Valid()
    ensures var c := Exec(s, events).counters;
      && c.demand == s.counters.demand + Demands(s, events)
      && c.background == s.counters.background + Backgrounds(s, events)
      && c.demandBytes == s.counters.demandBytes + Asked(s, events, false)
      && c.backgroundBytes == s.counters.backgroundBytes + Asked(s, events, true)
    decreases |events|
  {
    if events != [] {
      hide Selected;
      RunCounted(s, events[..|events| - 1]);
      assert !(Takes(Exec(s, events[..|events| - 1]), events[|events| - 1]) &&
               Polls(Exec(s, events[..|events| - 1]), events[|events| - 1]));
    }
  }

  // ----- the shared state ----------------------------------------------------

  class Shared {
    var ready: seq<bool>
    var next: nat
    var opportunity: nat
    var background: bool
    var counters: Counters

    function Value(): State
      reads this
    {
      State(ready, next, opportunity, background, counters)
    }

    constructor (images: nat)
      requires images > 0
      ensures Value() == Fresh(images)
    {
      ready, next, opportunity, background := seq(images, _ => false), 0, 0, false;
      counters := Counters(0, 0, 0, 0, 0, 0);
    }

    /** Who the next opportunity belongs to. */
    method Choose() returns (choice: Option<Choice>)
      requires Value().Valid()
      ensures choice == Selected(Value())
    {
      var demand: Option<nat> := None;
      var d := 0;
      while d < |ready| && demand.None?
        invariant d <= |ready|
        invariant demand.None? ==> Search(Value(), 0) == Search(Value(), d)
        invariant demand.Some? ==> Search(Value(), 0) == demand
      {
        var i := if next + d < |ready| then next + d else next + d - |ready|;
        if ready[i] { demand := Some(i); }
        d := d + 1;
      }
      if background && (opportunity == 0 || demand.None?) { return Some(Background); }
      choice := if demand.Some? then Some(Demand(demand.value)) else None;
    }

    method Allow(choice: Choice, bytes: nat)
      requires Value().Valid() && (choice.Demand? ==> choice.image < |ready|)
      modifies this
      ensures Value() == Grant(old(Value()), choice, bytes)
    {
      match choice {
        case Demand(i) =>
          ready := ready[i := false];
          next := if i + 1 == |ready| then 0 else i + 1;
          counters := counters.(demand := counters.demand + 1, demandBytes := counters.demandBytes + bytes,
                                borrowedDemand := counters.borrowedDemand + if opportunity == 0 then 1 else 0);
        case Background =>
          background := false;
          counters := counters.(background := counters.background + 1,
            backgroundBytes := counters.backgroundBytes + bytes,
                                borrowedBackground := counters.borrowedBackground + if opportunity != 0 then 1 else 0);
      }
      opportunity := if opportunity == 3 then 0 else opportunity + 1;
    }

    method SetReady(image: nat, r: bool)
      requires Value().Valid() && image < |ready|
      modifies this
      ensures Value() == Step(old(Value()), Ready(image, r)) == old(Value()).(ready := old(ready)[image := r])
    {
      ready := ready[image := r];
    }

    /** A port asks for its turn; `false` means it must wait. */
    method TakeTurn(image: nat, bytes: nat, more: bool) returns (taken: bool)
      requires Value().Valid() && image < |ready|
      modifies this
      ensures Value() == Step(old(Value()), Take(image, bytes, more))
      ensures taken <==> First(old(Value()), image) && !(old(background) && old(opportunity) == 0)
      ensures taken ==> ready == old(ready)[image := more] && background == old(background)
      ensures taken ==> next == if image + 1 == |ready| then 0 else image + 1
      ensures taken ==> opportunity == if old(opportunity) == 3 then 0 else old(opportunity) + 1
      ensures taken ==> counters.demand == old(counters).demand + 1
      ensures taken ==> counters.demandBytes == old(counters).demandBytes + bytes
      ensures !taken ==> Value() == old(Value())
    {
      hide Selected, First, Search;
      SelectedExactly(Value());
      var choice := Choose();
      if choice != Some(Demand(image)) { return false; }
      Allow(Demand(image), bytes);
      ready := ready[image := more];
      taken := true;
    }

    /** A second owner is refused; otherwise the wait begins. */
    method BeginBackground() returns (ok: bool)
      requires Value().Valid()
      modifies this
      ensures ok == !old(background)
      ensures Value() == Step(old(Value()), Ask) == old(Value()).(background := true)
    {
      ok := !background;
      background := true;
    }

    /** One look of the waiting owner. */
    method PollBackground(bytes: nat) returns (granted: bool)
      requires Value().Valid() && background
      modifies this
      ensures Value() == Step(old(Value()), Poll(bytes)) && (granted <==> old(opportunity) == 0 || old(Quiet(Value())))
      ensures granted ==> !background && ready == old(ready) && next == old(next)
      ensures granted ==> opportunity == if old(opportunity) == 3 then 0 else old(opportunity) + 1
      ensures granted ==> counters.background == old(counters).background + 1
      ensures granted ==> counters.backgroundBytes == old(counters).backgroundBytes + bytes
      ensures !granted ==> Value() == old(Value())
    {
      SelectedExactly(Value());
      var choice := Choose();
      granted := choice == Some(Background);
      if granted { Allow(Background, bytes); }
    }

    /** The deadline passes. */
    method LeaveBackground()
      requires Value().Valid()
      modifies this
      ensures Value() == Step(old(Value()), Leave) == old(Value()).(background := false)
    {
      background := false;
    }
  }
}
