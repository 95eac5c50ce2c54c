/**
 * The other half of exactly once: whatever happened, a restart and one round per
 * outstanding request answer everything the guest has posted, as sequential
 * execution would.
 */
module SerialProgress {
  import opened Units
  import opened Staging
  import opened StagingCrash
  import opened StagingLog
  import opened SerialRestart

  /** Blocks a request logs. */
  function Cost(r: Req): nat { if r.Write? then |r.bytes| / 4096 else 0 }

  /** Slots it logs: its blocks, and a fence behind them if there are any. */
  function Slots(r: Req): nat { if Cost(r) > 0 then Cost(r) + 1 else 0 }

  function Appends(n: nat): seq<Event> { seq(n, _ => Append) }

  /** One request from the ring to its used entry. */
  function Round(r: Req): seq<Event> {
    [Fetch] + Appends(Slots(r)) + [Finish(true), Publish]
  }

  /** A round for each request from the `i`-th on. */
  function Rounds(requests: seq<Req>, i: nat): seq<Event>
    decreases |requests| - i
  {
    if i >= |requests| then [] else Round(requests[i]) + Rounds(requests, i + 1)
  }

  function Costs(requests: seq<Req>, i: nat): nat
    decreases |requests| - i
  {
    if i >= |requests| then 0 else Cost(requests[i]) + Costs(requests, i + 1)
  }

  lemma {:induction false} ExecConcat(c: World, s: Sys, a: seq<Event>, b: seq<Event>)
    ensures Exec(c, s, a + b) == Exec(c, Exec(c, s, a), b)
    decreases |b|
  {
    hide Next;
    if b == [] {
      assert a + b == a;
    } else {
      ExecConcat(c, s, a, b[..|b| - 1]);
      assert (a + b)[..|a + b| - 1] == a + b[..|b| - 1];
    }
  }

  lemma {:induction false} ExecOne(c: World, s: Sys, e: Event)
    ensures Exec(c, s, [e]) == Next(c, s, e)
  {
    hide Next;
    assert [e][..0] == [];
  }

  lemma {:induction false} AttemptSlots(imageBytes: nat, n: nat, r: Req)
    requires ReqOk(imageBytes, r)
    ensures |Attempt(n, r)| == Slots(r)
    ensures Slots(r) > 0 ==> r.Write? && Slots(r) == Cost(r) + 1
  {
    if r.Write? {
      InRange(imageBytes, r.offset, |r.bytes|);
      WholeBlocks(|r.bytes|);
    }
  }

  lemma {:induction false} CostRoom(imageBytes: nat, n: nat, r: Req, k: nat)
    requires ReqOk(imageBytes, r) && k <= |Attempt(n, r)| && n + Cost(r) <= U64_MAX
    ensures Roomy(n, r, k)
  {
    AttemptSlots(imageBytes, n, r);
    hide Attempt;
  }

  /** A whole attempt adds its blocks to the count, and no more. */
  lemma {:induction false} AttemptCosts(imageBytes: nat, file: seq<Slot>, r: Req)
    requires Written(imageBytes, file) && ReqOk(imageBytes, r) && Count(file) + Cost(r) <= U64_MAX
    ensures Count(file + Attempt(Count(file), r)) == Count(file) + Cost(r)
  {
    var n := Count(file);
    var a := Attempt(n, r);
    AttemptSlots(imageBytes, n, r);
    if Slots(r) == 0 {
      assert file + a == file;
    } else {
      var k := |a| - 1;
      CostRoom(imageBytes, n, r, k);
      AttemptFence(n, r);
      AttemptCount(imageBytes, file, r, k);
      hide Count, Attempt, Written, ReqOk;
      assert file + a == (file + a[..k]) + [a[k]];
      AppendSlot(imageBytes, file + a[..k], a[k]);
    }
  }

  // ----- one round -----------------------------------------------------------

  /** Idle: nothing of an attempt is in the file, and all of the file is settled. */
  lemma {:induction false} IdleFacts(c: World, s: Sys)
    requires Inv(c, s) && s.m.phase.Idle?
    ensures s.b.base == |s.m.file| && s.m.file[..s.b.base] == s.m.file && s.b.k == 0 && !s.b.torn && !s.b.doubt
    ensures Written(c.imageBytes, s.m.file)
    ensures s.m.used == |s.m.outcomes| == |s.b.effects| <= |s.b.requests| == s.m.posted
    ensures forall i | 0 <= i < |s.b.requests| :: ReqOk(c.imageBytes, s.b.requests[i])
  {
    hide ImageOf, Attempt, Count, Applied, Settled, Answer, AnswerInv, Written, Roomy, ReqOk;
    assert s.m.file == s.m.file[..s.b.base];
  }

  lemma {:induction false} FetchTakes(c: World, s: Sys)
    requires Inv(c, s) && s.m.phase.Idle? && s.m.used < s.m.posted
    ensures s.m.used < |s.b.requests|
    ensures Next(c, s, Fetch) == s.(m := s.m.(phase := Running(s.b.requests[s.m.used])))
  {
    hide LogInv, AnswerInv, Attempt, Count, Applied, Answer, ReqOk;
    FetchIs(c, s);
  }

  /** `j` appends of a request that has just been fetched. */
  function Appended(s: Sys, r: Req, j: nat): Sys
    requires j <= |Attempt(Count(s.m.file), r)|
  {
    Sys(s.m.(file := s.m.file + Attempt(Count(s.m.file), r)[..j]), s.b.(k := j))
  }

  lemma {:induction false} AppendsRun(c: World, s: Sys, r: Req, j: nat)
    requires s.m.phase == Running(r) && s.b.base == |s.m.file| && s.b.k == 0
    requires Written(c.imageBytes, s.m.file) && ReqOk(c.imageBytes, r)
    requires Count(s.m.file) + Cost(r) <= U64_MAX && j <= |Attempt(Count(s.m.file), r)|
    ensures Exec(c, s, Appends(j)) == Appended(s, r, j)
    decreases j
  {
    var n := Count(s.m.file);
    var a := Attempt(n, r);
    if j == 0 {
      assert s.m.file + a[..0] == s.m.file;
    } else {
      AppendsRun(c, s, r, j - 1);
      AppendOnce(c, s, r, j - 1);
      assert Appends(j)[..j - 1] == Appends(j - 1);
    }
  }

  lemma {:induction false} AppendOnce(c: World, s: Sys, r: Req, j: nat)
    requires s.m.phase == Running(r) && s.b.base == |s.m.file| && s.b.k == 0
    requires Written(c.imageBytes, s.m.file) && ReqOk(c.imageBytes, r)
    requires Count(s.m.file) + Cost(r) <= U64_MAX && j < |Attempt(Count(s.m.file), r)|
    ensures Next(c, Appended(s, r, j), Append) == Appended(s, r, j + 1)
  {
    var n := Count(s.m.file);
    CostRoom(c.imageBytes, n, r, j);
    AttemptCount(c.imageBytes, s.m.file, r, j);
    AttemptFence(n, r);
    AttemptSlots(c.imageBytes, n, r);
    hide Count, Attempt, Written, ReqOk;
    var a := Attempt(n, r);
    var t := Appended(s, r, j);
    assert t.m.file[..t.b.base] == s.m.file;
    assert t.m.file + [a[j]] == s.m.file + a[..j + 1];
  }

  lemma {:induction false} FinishReady(c: World, s: Sys, r: Req)
    requires Inv(c, s) && s.m.phase == Running(r) && s.b.base <= |s.m.file|
    requires s.b.k == |Attempt(Count(s.m.file[..s.b.base]), r)|
    ensures var t := Next(c, s, Finish(true)); t.m.phase.Ready? && t.b == s.b && t.m.file == s.m.file
    ensures var t := Next(c, s, Finish(true)); t.m == s.m.(phase := t.m.phase, synced := t.m.synced)
  {
    hide Inv, Attempt, Count, ImageOf, Answer;
  }

  /** What a round adds. */
  ghost predicate Advances(c: World, s: Sys, r: Req, t: Sys) {
    && Inv(c, t) && t.m.phase.Idle? && |s.b.effects| <= |s.b.requests|
    && t.m.used == s.m.used + 1 && t.m.posted == s.m.posted && t.b.requests == s.b.requests
    && t.b.effects == s.b.effects + [true]
    && t.m.outcomes == s.m.outcomes + [Outcome.Ok(Answer(Applied(c.imageBytes, s.b.requests, s.b.effects), r))]
    && Count(t.m.file) == Count(s.m.file) + Cost(r)
  }

  /**
   * From every idle state a round answers the next request as sequential
   * execution does and leaves the image one request further on.
   */
  lemma {:induction false} RoundServes(c: World, s: Sys)
    requires Inv(c, s) && s.m.phase.Idle? && s.m.used < s.m.posted && s.m.used < |s.b.requests|
    requires Count(s.m.file) + Cost(s.b.requests[s.m.used]) <= U64_MAX
    ensures var r := s.b.requests[s.m.used]; var t := Exec(c, s, Round(r));
      Advances(c, s, r, t) && ImageOf(c.imageBytes, t.m.file) == Applied(c.imageBytes, t.b.requests, t.b.effects)
  {
    hide *;
    var r := s.b.requests[s.m.used];
    IdleFacts(c, s);
    RoundReady(c, s);
    var m := Readied(c, s, r);
    ReadyFacts(c, m);
    ReadyImage(c, m);
    PublishIs(c, m);
    StepKeeps(c, m, Publish);
    AttemptCosts(c.imageBytes, s.m.file, r);
    RoundIs(c, s, r);
    AdvancesIs(c, s, r, m, Next(c, m, Publish));
  }

  /** A round but for the used entry. */
  ghost function Readied(c: World, s: Sys, r: Req): Sys {
    Next(c, Exec(c, Next(c, s, Fetch), Appends(Slots(r))), Finish(true))
  }

  lemma {:induction false} RoundReady(c: World, s: Sys)
    requires Inv(c, s) && s.m.phase.Idle? && s.m.used < s.m.posted && s.m.used < |s.b.requests|
    requires Count(s.m.file) + Cost(s.b.requests[s.m.used]) <= U64_MAX
    ensures var r := s.b.requests[s.m.used]; var t := Readied(c, s, r);
      && Inv(c, t) && t.m.phase.Ready? && t.m == s.m.(phase := t.m.phase, synced := t.m.synced, file := t.m.file)
      && t.m.file == s.m.file + Attempt(Count(s.m.file), r)
      && t.b == s.b.(k := t.b.k)
  {
    var r := s.b.requests[s.m.used];
    hide Inv, Next, Exec, Written, ReqOk, Attempt, Count, Cost, Slots;
    IdleFacts(c, s);
    FetchTakes(c, s);
    AttemptSlots(c.imageBytes, Count(s.m.file), r);
    var s1 := Next(c, s, Fetch);
    var a := Attempt(Count(s.m.file), r);
    AppendsRun(c, s1, r, |a|);
    var s2 := Appended(s1, r, |a|);
    assert a[..|a|] == a && s2.m.file[..s2.b.base] == s.m.file;
    StepKeeps(c, s, Fetch);
    RunKeeps(c, s1, Appends(|a|));
    FinishReady(c, s2, r);
    StepKeeps(c, s2, Finish(true));
  }

  lemma {:induction false} AdvancesIs(c: World, s: Sys, r: Req, m: Sys, t: Sys)
    requires m.m.phase.Ready? && m.m == s.m.(phase := m.m.phase, synced := m.m.synced, file := m.m.file)
    requires m.b == s.b.(k := m.b.k) && |s.b.effects| < |s.b.requests| && Inv(c, t)
    requires m.m.phase.r == r && m.m.phase.data == Answer(Applied(c.imageBytes, s.b.requests, s.b.effects), r)
    requires Count(m.m.file) == Count(s.m.file) + Cost(r)
    requires t == Sys(m.m.(used := m.m.used + 1, outcomes := m.m.outcomes + [Outcome.Ok(m.m.phase.data)],
                           cursor := Next16(m.m.cursor), phase := Idle),
                      m.b.(effects := m.b.effects + [true], base := |m.m.file|, k := 0, ahead := false))
    ensures Advances(c, s, r, t)
  {
    hide Inv, Applied, Answer, Count, Cost;
  }

  lemma {:induction false} RoundIs(c: World, s: Sys, r: Req)
    ensures Exec(c, s, Round(r)) == Next(c, Readied(c, s, r), Publish)
  {
    hide Next;
    ExecOne(c, s, Fetch);
    ExecConcat(c, s, [Fetch], Appends(Slots(r)));
    var m := Exec(c, Next(c, s, Fetch), Appends(Slots(r)));
    ExecConcat(c, s, [Fetch] + Appends(Slots(r)), [Finish(true), Publish]);
    ExecConcat(c, m, [Finish(true)], [Publish]);
    ExecOne(c, m, Finish(true));
    ExecOne(c, Next(c, m, Finish(true)), Publish);
    assert [Finish(true)] + [Publish] == [Finish(true), Publish];
  }

  /**
   * A request that fails, torn or not, is answered with an error and stops the
   * daemon; whether it took effect is settled by what then survives.
   */
  lemma {:induction false} FailureAnswers(c: World, s: Sys, tears: bool)
    requires Inv(c, s) && s.m.phase.Running? && (tears ==> s.m.phase.r.Write?)
    ensures var t := Exec(c, s, [if tears then Tear else Finish(false), Publish]);
      && Inv(c, t) && t.m.phase == Down && t.m.used == s.m.used + 1 && t.m.posted == s.m.posted
      && t.m.outcomes == s.m.outcomes + [IoErr] && t.b.requests == s.b.requests
      && t.m.file == s.m.file + (if tears then [Damaged] else []) && t.m.synced == s.m.synced
  {
    var e := if tears then Tear else Finish(false);
    FailingIs(c, s, tears);
    hide Inv, Next, Exec;
    StepKeeps(c, s, e);
    PublishErrorIs(c, Next(c, s, e));
    StepKeeps(c, Next(c, s, e), Publish);
    ExecOne(c, s, e);
    ExecConcat(c, s, [e], [Publish]);
    ExecOne(c, Next(c, s, e), Publish);
    assert [e] + [Publish] == [e, Publish];
  }

  lemma {:induction false} FailingIs(c: World, s: Sys, tears: bool)
    requires s.m.phase.Running? && (tears ==> s.m.phase.r.Write?)
    ensures var t := Next(c, s, if tears then Tear else Finish(false));
      && t.m == s.m.(file := s.m.file + (if tears then [Damaged] else []), phase := Failing(s.m.phase.r))
      && t.b == s.b.(torn := t.b.torn)
  {
    hide Attempt, Count;
    assert s.m.file + [] == s.m.file;
  }

  // ----- every outstanding request -------------------------------------------

  /** `t` has answered everything posted in `s`, all of it Ok from `s` on, and is idle. */
  ghost predicate CaughtUp(c: World, s: Sys, t: Sys) {
    && Inv(c, t) && t.m.phase.Idle? && t.b.requests == s.b.requests
    && t.m.used == t.m.posted == s.m.posted == |t.m.outcomes|
    && s.m.outcomes <= t.m.outcomes && s.b.effects <= t.b.effects && |t.b.effects| == |t.m.outcomes|
    && (forall i | |s.m.outcomes| <= i < |t.m.outcomes| :: t.m.outcomes[i].Ok?)
    && ImageOf(c.imageBytes, t.m.file) == Applied(c.imageBytes, t.b.requests, t.b.effects)
  }

  /** Nothing outstanding: the idle image is already that of every answer. */
  lemma {:induction false} NothingLeft(c: World, s: Sys)
    requires Inv(c, s) && s.m.phase.Idle? && s.m.used == s.m.posted
    ensures CaughtUp(c, s, s)
  {
    IdleFacts(c, s);
    IdleImage(c, s);
    hide Inv, ImageOf, Applied, Written, ReqOk, Count;
  }

  lemma {:induction false} CaughtUpAfter(c: World, s: Sys, r: Req, m: Sys, t: Sys)
    requires Advances(c, s, r, m) && CaughtUp(c, m, t) && s.m.used == |s.m.outcomes|
    ensures CaughtUp(c, s, t)
  {
    hide Inv, ImageOf, Applied, Answer, Count;
    assert t.m.outcomes[|s.m.outcomes|] == m.m.outcomes[|s.m.outcomes|];
  }

  lemma {:induction false} CatchesUp(c: World, s: Sys)
    requires Inv(c, s) && s.m.phase.Idle?
    requires Count(s.m.file) + Costs(s.b.requests, s.m.used) <= U64_MAX
    ensures CaughtUp(c, s, Exec(c, s, Rounds(s.b.requests, s.m.used)))
    decreases |s.b.requests| - s.m.used
  {
    IdleFacts(c, s);
    hide Inv, Next, Written, ReqOk, Count, ImageOf, Applied, CaughtUp, Answer, Cost, Round;
    if s.m.used == s.m.posted {
      NothingLeft(c, s);
    } else {
      var r := s.b.requests[s.m.used];
      RoundServes(c, s);
      var m := Exec(c, s, Round(r));
      CatchesUp(c, m);
      ExecConcat(c, s, Round(r), Rounds(s.b.requests, s.m.used + 1));
      CaughtUpAfter(c, s, r, m, Exec(c, m, Rounds(s.b.requests, s.m.used + 1)));
    }
  }

  /** A kill, and a restart on any surviving file in which no fence follows damage. */
  lemma {:induction false} Reopens(c: World, s: Sys, disk: seq<Slot>)
    requires Inv(c, s) && Survivor(s.m.file, s.m.synced, disk) && !FenceAfterDamage(disk)
    ensures var t := Exec(c, s, [Kill, Restart(disk)]);
      && Inv(c, t) && t.m.phase.Idle? && t.m.file == disk[..Committed(disk)]
      && t.m.used == s.m.used && t.m.posted == s.m.posted && t.m.outcomes == s.m.outcomes
      && t.b.requests == s.b.requests && |t.b.effects| == |s.b.effects|
  {
    hide Inv, Next, Exec, Written, Survivor, FenceAfterDamage, Opens, Restarts, RingInv, LogInv, PhaseInv, Low16, Sub16;
    var d := Next(c, s, Kill);
    StepKeeps(c, s, Kill);
    KillIs(c, s);
    StepKeeps(c, d, Restart(disk));
    ExecOne(c, s, Kill);
    ExecConcat(c, s, [Kill], [Restart(disk)]);
    ExecOne(c, d, Restart(disk));
    assert [Kill] + [Restart(disk)] == [Kill, Restart(disk)];
    FileParts(c, d);
    FileLeft(c, d);
    CrashSafe(c.imageBytes, d.m.file, d.b.base + d.b.k, d.m.synced, disk);
    DoubtPublished(c, d);
    OpensImage(c, d, disk);
    OpensIs(c, d, disk);
    RestartIs(c, d, disk);
    RestartsTo(c, d, Opens(c, d, disk), disk);
  }

  /** A restart is refused exactly on a damaged log or indices further apart than the ring, whatever the state. */
  lemma {:induction false} RestartExactly(c: World, s: Sys, disk: seq<Slot>)
    requires s.m.phase.Down? && Survivor(s.m.file, s.m.synced, disk)
    ensures Next(c, s, Restart(disk)).m.phase.Idle? <==>
      && Written(c.imageBytes, disk[..Committed(disk)])
      && (s.m.posted % 0x1_0000 - s.m.used % 0x1_0000) % 0x1_0000 <= c.size
    ensures !Next(c, s, Restart(disk)).m.phase.Idle? ==> Next(c, s, Restart(disk)) == s
  {
    hide Written, Survivor;
  }

  lemma {:induction false} KillIs(c: World, s: Sys)
    ensures Next(c, s, Kill) == s.(m := s.m.(phase := Down))
  {
  }

  lemma {:induction false} RestartIs(c: World, s: Sys, disk: seq<Slot>)
    requires s.m.phase.Down? && Survivor(s.m.file, s.m.synced, disk)
    ensures Next(c, s, Restart(disk)) == Opens(c, s, disk)
  {
  }

  lemma {:induction false} RestartsTo(c: World, s: Sys, t: Sys, disk: seq<Slot>)
    requires Restarts(c, s, t, disk)
    ensures t.m.phase.Idle? && t.m.file == disk[..Committed(disk)]
    ensures t.m.used == s.m.used && t.m.posted == s.m.posted && t.m.outcomes == s.m.outcomes
    ensures t.b.requests == s.b.requests && |t.b.effects| == |s.b.effects|
  {
  }

  /** The continuation that answers everything: restart on what survived, then a round per request. */
  function Resume(s: Sys, disk: seq<Slot>): seq<Event> {
    [Kill, Restart(disk)] + Rounds(s.b.requests, s.m.used)
  }

  /**
   * After any run, whatever the daemon was doing and whatever it had answered:
   * a restart on the surviving file and one round per outstanding request answer
   * every posted request, the new ones all Ok.
   */
  lemma {:induction false} AllAnswered(c: World, events: seq<Event>, disk: seq<Slot>)
    requires c.Valid()
    requires var s := Exec(c, Fresh(c), events);
      && Survivor(s.m.file, s.m.synced, disk) && !FenceAfterDamage(disk)
      && Count(disk[..Committed(disk)]) + Costs(s.b.requests, s.m.used) <= U64_MAX
    ensures var s := Exec(c, Fresh(c), events); var t := Exec(c, Fresh(c), events + Resume(s, disk));
      && t.m.used == t.m.posted == s.m.posted == |t.m.outcomes| && t.b.requests == s.b.requests && t.m.phase.Idle?
      && s.m.outcomes <= t.m.outcomes && |t.b.effects| == |t.b.requests| == |t.m.outcomes|
      && (forall i | 0 <= i < |t.m.outcomes| && (i >= |s.m.outcomes| || s.m.outcomes[i].Ok?) ::
            && t.b.effects[i]
            && t.m.outcomes[i] ==
               Outcome.Ok(Answer(Applied(c.imageBytes, t.b.requests, t.b.effects[..i]), t.b.requests[i])))
      && ImageOf(c.imageBytes, t.m.file) == Applied(c.imageBytes, t.b.requests, t.b.effects)
  {
    hide Inv, Exec, Fresh, Next, Survivor, FenceAfterDamage, Count, ImageOf, Applied, Answer, CaughtUp, Rounds, Costs;
    FreshInv(c);
    RunKeeps(c, Fresh(c), events);
    var s := Exec(c, Fresh(c), events);
    Reopens(c, s, disk);
    var m := Exec(c, s, [Kill, Restart(disk)]);
    CatchesUp(c, m);
    ExecConcat(c, Fresh(c), events, Resume(s, disk));
    ExecConcat(c, s, [Kill, Restart(disk)], Rounds(s.b.requests, s.m.used));
    CaughtUpFacts(c, m, Exec(c, m, Rounds(s.b.requests, s.m.used)));
  }

  lemma {:induction false} CaughtUpFacts(c: World, s: Sys, t: Sys)
    requires CaughtUp(c, s, t)
    ensures t.m.used == t.m.posted == s.m.posted == |t.m.outcomes| && t.b.requests == s.b.requests && t.m.phase.Idle?
    ensures s.m.outcomes <= t.m.outcomes && |t.b.effects| == |t.b.requests| == |t.m.outcomes|
    ensures forall i | 0 <= i < |t.m.outcomes| && (i >= |s.m.outcomes| || s.m.outcomes[i].Ok?) ::
      && t.b.effects[i]
      && t.m.outcomes[i] == Outcome.Ok(Answer(Applied(c.imageBytes, t.b.requests, t.b.effects[..i]), t.b.requests[i]))
    ensures ImageOf(c.imageBytes, t.m.file) == Applied(c.imageBytes, t.b.requests, t.b.effects)
  {
    RunFacts(c, t);
    hide Inv, ImageOf, Applied, Answer;
  }

  /**
   * At least once, to go with `ExactlyOnce`: after any run without errors some
   * continuation leaves every posted request answered as sequential execution
   * does, and the image that of all of them.
   */
  lemma {:induction false} AtLeastOnce(c: World, events: seq<Event>, disk: seq<Slot>)
    requires c.Valid()
    requires forall i | 0 <= i < |Exec(c, Fresh(c), events).m.outcomes| :: Exec(c, Fresh(c), events).m.outcomes[i].Ok?
    requires var s := Exec(c, Fresh(c), events);
      && Survivor(s.m.file, s.m.synced, disk) && !FenceAfterDamage(disk)
      && Count(disk[..Committed(disk)]) + Costs(s.b.requests, s.m.used) <= U64_MAX
    ensures var s := Exec(c, Fresh(c), events); var t := Exec(c, Fresh(c), events + Resume(s, disk));
      && |t.m.outcomes| == |t.b.requests| && t.b.requests == s.b.requests && s.m.outcomes <= t.m.outcomes
      && (forall i | 0 <= i < |t.b.requests| ::
            t.m.outcomes[i] == Outcome.Ok(Answer(Sequential(c.imageBytes, t.b.requests, i), t.b.requests[i])))
      && ImageOf(c.imageBytes, t.m.file) == Sequential(c.imageBytes, t.b.requests, |t.b.requests|)
  {
    hide Exec, Fresh, Survivor, FenceAfterDamage, Count, ImageOf, Applied, Answer, Costs, Resume, Sequential;
    AllAnswered(c, events, disk);
    var s := Exec(c, Fresh(c), events);
    var t := Exec(c, Fresh(c), events + Resume(s, disk));
    AllTook(c.imageBytes, t.b.requests, t.b.effects);
    forall i | 0 <= i < |t.b.requests|
      ensures t.m.outcomes[i] == Outcome.Ok(Answer(Sequential(c.imageBytes, t.b.requests, i), t.b.requests[i]))
    {
      AllTook(c.imageBytes, t.b.requests, t.b.effects[..i]);
    }
  }

  /** A process kill loses nothing it wrote, so its file is such a survivor. */
  lemma {:induction false} KillSurvives(c: World, events: seq<Event>)
    requires c.Valid()
    ensures var s := Exec(c, Fresh(c), events);
      Survivor(s.m.file, s.m.synced, s.m.file) && !FenceAfterDamage(s.m.file)
  {
    hide Inv, Exec, Fresh, RingInv, LogInv, PhaseInv, Count, Written, Survivor, FenceAfterDamage;
    FreshInv(c);
    RunKeeps(c, Fresh(c), events);
    var s := Exec(c, Fresh(c), events);
    FileParts(c, s);
    FileKept(c, s);
    FileLeft(c, s);
    CrashSafe(c.imageBytes, s.m.file, s.b.base + s.b.k, s.m.synced, s.m.file);
  }

  // ----- from the first request on -------------------------------------------

  /** Post a request and serve it, one after another. */
  function Serve(requests: seq<Req>): seq<Event> {
    if requests == [] then [Restart([])]
    else Serve(requests[..|requests| - 1]) + ([Post(requests[|requests| - 1])] + Round(requests[|requests| - 1]))
  }

  function Total(requests: seq<Req>): nat {
    if requests == [] then 0 else Total(requests[..|requests| - 1]) + Cost(requests[|requests| - 1])
  }

  lemma {:induction false} PostAdds(c: World, s: Sys, r: Req)
    requires Inv(c, s) && s.m.posted < s.m.used + c.size && ReqOk(c.imageBytes, r)
    ensures var t := Next(c, s, Post(r));
      && t.b == s.b.(requests := s.b.requests + [r]) && t.m == s.m.(ring := t.m.ring, posted := s.m.posted + 1)
  {
    hide LogInv, PhaseInv, AnswerInv, ReqOk;
  }

  lemma {:induction false} FirstRestart(c: World)
    requires c.Valid()
    ensures var t := Exec(c, Fresh(c), [Restart([])]);
      && Inv(c, t) && t.m.phase.Idle? && t.m.file == [] && t.m.used == t.m.posted == 0 && t.b.requests == []
      && t.m.outcomes == [] && t.b.effects == []
  {
    var s := Fresh(c);
    FreshInv(c);
    StepKeeps(c, s, Restart([]));
    ExecOne(c, s, Restart([]));
    hide Inv, Exec;
    assert Survivor([], 0, []) && Committed([]) == 0 && Written(c.imageBytes, [][..0]);
    assert Opens(c, s, []).m.phase.Idle?;
  }

  /** Idle with exactly `requests` posted and each of them answered Ok. */
  ghost predicate Served(c: World, requests: seq<Req>, t: Sys) {
    && Inv(c, t) && t.m.phase.Idle? && t.b.requests == requests && t.m.used == t.m.posted == |requests|
    && Count(t.m.file) == Total(requests)
    && |t.m.outcomes| == |requests| && (forall i | 0 <= i < |requests| :: t.m.outcomes[i].Ok?)
  }

  lemma {:induction false} ServeNext(c: World, s: Sys, before: seq<Req>, r: Req)
    requires Served(c, before, s) && ReqOk(c.imageBytes, r) && Total(before) + Cost(r) <= U64_MAX
    ensures Served(c, before + [r], Exec(c, s, [Post(r)] + Round(r)))
  {
    hide Inv, Next, ReqOk, Cost, Round, Exec, Advances;
    RingSize(c, s);
    PostAdds(c, s, r);
    StepKeeps(c, s, Post(r));
    var m := Next(c, s, Post(r));
    assert m.b.requests[|before|] == r;
    RoundServes(c, m);
    ExecOne(c, s, Post(r));
    ExecConcat(c, s, [Post(r)], Round(r));
    ServedMore(c, s, before, r, m, Exec(c, m, Round(r)));
  }

  lemma {:induction false} ServedMore(c: World, s: Sys, before: seq<Req>, r: Req, m: Sys, t: Sys)
    requires Served(c, before, s) && Advances(c, m, r, t)
    requires m.b == s.b.(requests := s.b.requests + [r]) && m.m == s.m.(ring := m.m.ring, posted := s.m.posted + 1)
    ensures Served(c, before + [r], t)
  {
    hide Inv, Applied, Answer, Cost;
    assert (before + [r])[..|before|] == before;
  }

  /** Every list of requests the log has numbers for is served, each answered once. */
  lemma {:induction false} ServesAll(c: World, requests: seq<Req>)
    requires c.Valid() && Total(requests) <= U64_MAX
    requires forall i | 0 <= i < |requests| :: ReqOk(c.imageBytes, requests[i])
    ensures Served(c, requests, Exec(c, Fresh(c), Serve(requests)))
    decreases |requests|
  {
    hide Inv, ReqOk, Round, Exec, Fresh, Cost, Served;
    if requests == [] {
      FirstRestart(c);
      ServedNone(c, Exec(c, Fresh(c), [Restart([])]));
    } else {
      var before, r := requests[..|requests| - 1], requests[|requests| - 1];
      ServesAll(c, before);
      ServeNext(c, Exec(c, Fresh(c), Serve(before)), before, r);
      assert before + [r] == requests;
      ExecConcat(c, Fresh(c), Serve(before), [Post(r)] + Round(r));
    }
  }

  lemma {:induction false} ServedNone(c: World, t: Sys)
    requires Inv(c, t) && t.m.phase.Idle? && t.m.file == [] && t.m.used == t.m.posted == 0 && t.b.requests == []
    requires t.m.outcomes == []
    ensures Served(c, [], t)
  {
    hide Inv;
  }

  lemma {:induction false} RingSize(c: World, s: Sys)
    requires Inv(c, s)
    ensures c.size > 0
  {
  }
}
