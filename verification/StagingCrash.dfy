/**
 * Recovery of a staging log: the reverse scan for the last fence, the forward
 * replay, and what they give after any crash.
 */
module StagingCrash {
  import opened Units
  import opened Staging

  datatype Opened = Opened(next: nat, appended: nat, durable: nat, blocks: map<nat, nat>)

  /** One past the last fence. */
  function Committed(disk: seq<Slot>): (n: nat)
    ensures n <= |disk|
    ensures n == 0 || disk[n - 1].IsFence()
    ensures forall i | n <= i < |disk| :: !disk[i].IsFence()
  {
    if disk == [] then 0
    else if disk[|disk| - 1].IsFence() then |disk|
    else Committed(disk[..|disk| - 1])
  }

  lemma {:induction false} CommittedIs(disk: seq<Slot>, n: nat)
    requires n <= |disk| && (n == 0 || disk[n - 1].IsFence())
    requires forall i | n <= i < |disk| :: !disk[i].IsFence()
    ensures n == Committed(disk)
  {
  }

  method ScanBack(disk: seq<Slot>) returns (n: nat)
    ensures n == Committed(disk)
  {
    n := |disk|;
    while n > 0
      invariant n <= |disk| && forall i | n <= i < |disk| :: !disk[i].IsFence()
    {
      if disk[n - 1].IsFence() { break; }
      n := n - 1;
    }
    CommittedIs(disk, n);
  }

  /**
   * Opening succeeds exactly when everything before the last fence is in order;
   * otherwise it names the first slot that is not.
   */
  method Recover(imageBytes: nat, disk: seq<Slot>) returns (res: Result<Opened, Error>)
    ensures res.Ok? <==> Written(imageBytes, disk[..Committed(disk)])
    ensures res.Ok? ==> var kept := disk[..Committed(disk)];
      res.value == Opened(|kept|, Count(kept), Count(kept), BlocksOf(kept))
    ensures res.Err? ==>
      && res.error.Corrupt? && res.error.slot < Committed(disk)
      && Written(imageBytes, disk[..res.error.slot])
      && !Follows(imageBytes, Count(disk[..res.error.slot]), disk[res.error.slot])
  {
    hide Count, BlocksOf, Written, Apply;
    var n := ScanBack(disk);
    var appended, durable, blocks: map<nat, nat> := 0, 0, map[];
    var slot := 0;
    ReplayNone(imageBytes, disk);
    while slot < n
      invariant slot <= n == Committed(disk)
      invariant appended == Count(disk[..slot]) && blocks == BlocksOf(disk[..slot]) && Written(imageBytes, disk[..slot])
      invariant slot > 0 && disk[slot - 1].IsFence() ==> durable == appended
      invariant slot == 0 ==> durable == 0
    {
      var s := disk[slot];
      ReplayStep(imageBytes, disk, slot, n);
      if !s.Decodes() { return Err(Corrupt(slot)); }
      if s.record.kind.Fence? {
        if s.record.sequence != appended { return Err(Corrupt(slot)); }
        durable := s.record.sequence;
      } else {
        if appended >= U64_MAX || appended + 1 != s.record.sequence ||
          !RangeOk(imageBytes, s.record.offset, s.record.length) {
          return Err(Corrupt(slot));
        }
        blocks := Apply(blocks, s, slot);
        appended := s.record.sequence;
      }
      slot := slot + 1;
    }
    res := Ok(Opened(n, appended, durable, blocks));
  }

  lemma {:induction false} ReplayNone(imageBytes: nat, disk: seq<Slot>)
    ensures Count(disk[..0]) == 0 && BlocksOf(disk[..0]) == map[] && Written(imageBytes, disk[..0])
  {
    assert disk[..0] == [];
  }

  /** One more slot of a replay. */
  lemma {:induction false} ReplayStep(imageBytes: nat, disk: seq<Slot>, slot: nat, n: nat)
    requires slot < n <= |disk| && Written(imageBytes, disk[..slot])
    ensures Written(imageBytes, disk[..n]) ==> Follows(imageBytes, Count(disk[..slot]), disk[slot])
    ensures Follows(imageBytes, Count(disk[..slot]), disk[slot]) ==> Written(imageBytes, disk[..slot + 1])
    ensures Count(disk[..slot + 1]) == Count(disk[..slot]) + if disk[slot].IsFence() then 0 else 1
    ensures BlocksOf(disk[..slot + 1]) == Apply(BlocksOf(disk[..slot]), disk[slot], slot)
    ensures disk[slot].IsFence() ==> BlocksOf(disk[..slot + 1]) == BlocksOf(disk[..slot])
  {
    hide Written, Follows;
    assert disk[..slot + 1][..slot] == disk[..slot];
    assert disk[..slot] + [disk[slot]] == disk[..slot + 1];
    if Written(imageBytes, disk[..n]) {
      WrittenAt(imageBytes, disk, n, slot);
    }
    if Follows(imageBytes, Count(disk[..slot]), disk[slot]) {
      WrittenAppend(imageBytes, disk[..slot], disk[slot]);
    }
  }

  lemma {:induction false} WrittenAt(imageBytes: nat, disk: seq<Slot>, n: nat, slot: nat)
    requires slot < n <= |disk| && Written(imageBytes, disk[..n])
    ensures Follows(imageBytes, Count(disk[..slot]), disk[slot])
  {
    assert disk[..n][..slot] == disk[..slot];
  }

  // ----- crashes -------------------------------------------------------------

  /**
   * A log's file as its writer left it: slots in order up to `next`, a torn one
   * beyond at most, synced up to a fence.
   */
  ghost predicate Left(imageBytes: nat, file: seq<Slot>, next: nat, synced: nat) {
    && synced <= next <= |file|
    && Written(imageBytes, file[..next])
    && (forall i | next <= i < |file| :: file[i].Damaged?)
    && (synced == 0 || file[synced - 1].IsFence())
  }

  /** Synced slots are kept; each later one is as written, unreadable, or gone. */
  ghost predicate Survivor(file: seq<Slot>, synced: nat, disk: seq<Slot>) {
    && synced <= |disk| <= |file|
    && (forall i | 0 <= i < synced :: disk[i] == file[i])
    && (forall i | synced <= i < |disk| :: disk[i] == file[i] || disk[i].Damaged?)
  }

  /** A fence that survived a slot before it that did not. */
  ghost predicate FenceAfterDamage(disk: seq<Slot>) {
    exists i, j | 0 <= i < j < |disk| :: disk[i].Damaged? && disk[j].IsFence()
  }

  lemma {:induction false} CommittedCovers(imageBytes: nat, file: seq<Slot>, next: nat, synced: nat, disk: seq<Slot>)
    requires Left(imageBytes, file, next, synced) && Survivor(file, synced, disk)
    ensures synced <= Committed(disk) <= next
  {
    if synced > 0 { assert disk[synced - 1] == file[synced - 1]; }
  }

  lemma {:induction false} DamageRefused(imageBytes: nat, disk: seq<Slot>)
    requires FenceAfterDamage(disk)
    ensures !Written(imageBytes, disk[..Committed(disk)])
  {
    hide Count;
    var i, j :| 0 <= i < j < |disk| && disk[i].Damaged? && disk[j].IsFence();
    var kept := disk[..Committed(disk)];
    assert j < |kept| && !kept[i].Decodes();
    assert !Follows(imageBytes, Count(kept[..i]), kept[i]);
  }

  lemma {:induction false} UndamagedAt(file: seq<Slot>, synced: nat, disk: seq<Slot>)
    requires Survivor(file, synced, disk) && !FenceAfterDamage(disk)
    ensures Committed(disk) <= |disk| <= |file|
    ensures forall i | 0 <= i < Committed(disk) :: disk[i] == file[i]
  {
    var n := Committed(disk);
    forall i | 0 <= i < n ensures disk[i] == file[i] {
      assert disk[n - 1].IsFence();
      assert i < n - 1 ==> !disk[i].Damaged?;
    }
  }

  lemma {:induction false} UndamagedKept(imageBytes: nat, file: seq<Slot>, next: nat, synced: nat, disk: seq<Slot>)
    requires Left(imageBytes, file, next, synced) && Survivor(file, synced, disk) && !FenceAfterDamage(disk)
    ensures Committed(disk) <= next && disk[..Committed(disk)] == file[..Committed(disk)]
    ensures Written(imageBytes, disk[..Committed(disk)])
  {
    hide Written, Count, Survivor, FenceAfterDamage, Committed;
    var n := Committed(disk);
    CommittedCovers(imageBytes, file, next, synced, disk);
    UndamagedAt(file, synced, disk);
    assert disk[..n] == file[..n];
    WrittenPrefix(imageBytes, file[..next], n);
    assert file[..next][..n] == file[..n];
  }

  /**
   * After any crash, opening either reports corruption, exactly when a surviving
   * fence follows a damaged slot, or keeps a prefix of the operations that
   * holds at least every acknowledged one.
   */
  lemma {:induction false} CrashSafe(imageBytes: nat, file: seq<Slot>, next: nat, synced: nat, disk: seq<Slot>)
    requires Left(imageBytes, file, next, synced) && Survivor(file, synced, disk)
    ensures var n := Committed(disk);
      && synced <= n <= next
      && (Written(imageBytes, disk[..n]) <==> !FenceAfterDamage(disk))
      && (Written(imageBytes, disk[..n]) ==>
            && disk[..n] == file[..n]
            && Count(disk[..n]) >= Count(file[..synced])
            && ImageOf(imageBytes, disk[..n]) == ImageOf(imageBytes, file[..n]))
  {
    CommittedCovers(imageBytes, file, next, synced, disk);
    hide Written, Count, ImageOf, FenceAfterDamage, Survivor;
    if FenceAfterDamage(disk) {
      DamageRefused(imageBytes, disk);
    } else {
      UndamagedKept(imageBytes, file, next, synced, disk);
    }
    CountMonotone(file, synced, Committed(disk));
  }

  /** An unsynced write is lost while the fence behind it survives: the log does not open. */
  lemma {:induction false} FenceOutlivesWrite(payload: seq<byte>)
    requires |payload| == BLOCK
    ensures var write := Good(Record(Write, 1, 0, BLOCK), payload);
      var fence := Good(Record(Fence, 1, 0, 0), []);
      && Left(BLOCK, [write, fence], 2, 0) && Survivor([write, fence], 0, [Damaged, fence])
      && Committed([Damaged, fence]) == 2 && !Written(BLOCK, [Damaged, fence])
  {
    hide Written, Count, Committed;
    var fence := Good(Record(Fence, 1, 0, 0), []);
    var file := [Good(Record(Write, 1, 0, BLOCK), payload), fence];
    var disk := [Damaged, fence];
    WriteThenFence(payload);
    assert file[..2] == file && disk[..2] == disk;
    assert disk[0].Damaged? && disk[1].IsFence();
    CommittedIs(disk, 2);
    DamageRefused(BLOCK, disk);
  }

  lemma {:induction false} WriteThenFence(payload: seq<byte>)
    requires |payload| == BLOCK
    ensures Written(BLOCK, [Good(Record(Write, 1, 0, BLOCK), payload), Good(Record(Fence, 1, 0, 0), [])])
  {
    var write := Good(Record(Write, 1, 0, BLOCK), payload);
    var fence := Good(Record(Fence, 1, 0, 0), []);
    assert [write][..0] == [] && Count([write]) == 1;
    hide Written, Count;
    assert [] + [write] == [write] && [write] + [fence] == [write, fence];
    ReplayNone(BLOCK, []);
    WrittenAppend(BLOCK, [], write);
    WrittenAppend(BLOCK, [write], fence);
  }

  /** If what survives is a prefix with at most a damaged tail, nothing is refused. */
  lemma {:induction false} PrefixNeverCorrupt(imageBytes: nat, file: seq<Slot>, next: nat, synced: nat,
      disk: seq<Slot>, kept: nat)
    requires Left(imageBytes, file, next, synced) && Survivor(file, synced, disk)
    requires kept <= |disk| &&
      (forall i | 0 <= i < kept :: disk[i].Good?) && (forall i | kept <= i < |disk| :: disk[i].Damaged?)
    ensures Written(imageBytes, disk[..Committed(disk)])
  {
    CrashSafe(imageBytes, file, next, synced, disk);
  }

  /** A recovered file recovers to itself. */
  lemma {:induction false} ReopenSame(disk: seq<Slot>)
    ensures Committed(disk[..Committed(disk)]) == Committed(disk)
  {
    var n := Committed(disk);
    if n > 0 { assert disk[..n][n - 1].IsFence(); }
  }
}
