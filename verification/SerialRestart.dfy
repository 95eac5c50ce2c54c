/**
 * Restartable staging: one request at a time, a write made durable before its
 * used entry is published, and a restart that resumes from the guest's own used
 * index. Kills and power losses may strike between any two steps.
 */
module SerialRestart {
  import opened Units
  import opened Staging
  import opened StagingCrash
  import opened StagingLog

  datatype Req = Read(offset: nat, length: nat) | Write(offset: nat, bytes: seq<byte>) | Flush | Other

  datatype Outcome = Ok(data: seq<byte>) | IoErr

  // ----- one request on a plain disk -----------------------------------------

  predicate ReqOk(imageBytes: nat, r: Req) {
    match r
    case Read(offset, length) => RangeOk(imageBytes, offset, length)
    case Write(offset, bytes) => RangeOk(imageBytes, offset, |bytes|)
    case _ => true
  }

  function Do(image: seq<byte>, r: Req): (after: seq<byte>)
    ensures |after| == |image|
  {
    if r.Write? && r.offset + |r.bytes| <= |image| then Splice(image, r.offset, r.bytes) else image
  }

  function Answer(image: seq<byte>, r: Req): seq<byte> {
    if r.Read? && r.offset + r.length <= |image| then image[r.offset..r.offset + r.length] else []
  }

  /** Executing in ring order each request that `effects` says took effect. */
  function Applied(imageBytes: nat, requests: seq<Req>, effects: seq<bool>): (image: seq<byte>)
    requires |effects| <= |requests|
    ensures |image| == imageBytes
  {
    if effects == [] then Zeros(imageBytes) else
    var n := |effects| - 1;
    var before := Applied(imageBytes, requests, effects[..n]);
    if effects[n] then Do(before, requests[n]) else before
  }

  lemma {:induction false} DoTwice(image: seq<byte>, r: Req)
    ensures Do(Do(image, r), r) == Do(image, r)
  {
    if r.Write? && r.offset + |r.bytes| <= |image| {
      assert Splice(Splice(image, r.offset, r.bytes), r.offset, r.bytes) == Splice(image, r.offset, r.bytes);
    }
  }

  // ----- the slots an execution appends --------------------------------------

  function FenceAt(n: nat): Slot { Good(Record(Fence, n, 0, 0), []) }

  /** A write's blocks and its fence; nothing else is logged, for nothing else is unsynced. */
  function Attempt(n: nat, r: Req): seq<Slot> {
    if r.Write? && r.bytes != [] && Span(Blocks(|r.bytes|)) <= |r.bytes|
    then WriteSlots(n, r.offset, r.bytes, Blocks(|r.bytes|)) + [FenceAt(n + Blocks(|r.bytes|))]
    else []
  }

  /** Sequence numbers suffice for the first `k` slots of an attempt. */
  predicate Roomy(n: nat, r: Req, k: nat) {
    k <= |Attempt(n, r)| && (k == 0 || n + (if k == |Attempt(n, r)| then k - 1 else k) <= U64_MAX)
  }

  /** All of an attempt, on top of a log in order. */
  lemma {:induction false} AttemptIs(imageBytes: nat, file: seq<Slot>, r: Req)
    requires Written(imageBytes, file) && ReqOk(imageBytes, r)
    requires Roomy(Count(file), r, |Attempt(Count(file), r)|)
    ensures var f := file + Attempt(Count(file), r);
      Written(imageBytes, f) && ImageOf(imageBytes, f) == Do(ImageOf(imageBytes, file), r)
  {
    hide Written, Count, ImageOf, Splice, Span, Blocks, RangeOk;
    if r.Write? {
      InRange(imageBytes, r.offset, |r.bytes|);
      WholeBlocks(|r.bytes|);
    }
    if r.Write? && r.bytes != [] {
      AttemptWrite(imageBytes, file, r);
    } else {
      if r.Write? {
        SpliceNothing(ImageOf(imageBytes, file), r.offset, r.bytes);
      }
      assert file + [] == file;
    }
  }

  lemma {:induction false} AttemptWrite(imageBytes: nat, file: seq<Slot>, r: Req)
    requires Written(imageBytes, file) && r.Write? && r.bytes != [] && RangeOk(imageBytes, r.offset, |r.bytes|)
    requires Span(Blocks(|r.bytes|)) == |r.bytes| && r.offset + |r.bytes| <= imageBytes &&
      Count(file) + Blocks(|r.bytes|) <= U64_MAX
    ensures var f := file + Attempt(Count(file), r);
      Written(imageBytes, f) && ImageOf(imageBytes, f) == Splice(ImageOf(imageBytes, file), r.offset, r.bytes)
  {
    hide Written, Count, ImageOf, Splice, Span, Blocks, RangeOk;
    var k := Blocks(|r.bytes|);
    WriteSlotsImage(imageBytes, file, r.offset, r.bytes, k);
    var g := file + WriteSlots(Count(file), r.offset, r.bytes, k);
    FenceFollows(imageBytes, g);
    assert r.bytes[..|r.bytes|] == r.bytes;
    assert file + Attempt(Count(file), r) == g + [FenceAt(Count(g))];
  }

  lemma {:induction false} FenceFollows(imageBytes: nat, file: seq<Slot>)
    requires Written(imageBytes, file)
    ensures Written(imageBytes, file + [FenceAt(Count(file))])
    ensures ImageOf(imageBytes, file + [FenceAt(Count(file))]) == ImageOf(imageBytes, file)
  {
    WrittenAppend(imageBytes, file, FenceAt(Count(file)));
    AppendSlot(imageBytes, file, FenceAt(Count(file)));
  }

  /** Only the last slot of an attempt is a fence. */
  lemma {:induction false} AttemptFence(n: nat, r: Req)
    ensures forall i | 0 <= i < |Attempt(n, r)| :: Attempt(n, r)[i].IsFence() <==> i == |Attempt(n, r)| - 1
  {
    if r.Write? && r.bytes != [] && Span(Blocks(|r.bytes|)) <= |r.bytes| {
      WriteSlotsPlain(n, r.offset, r.bytes, Blocks(|r.bytes|));
    }
  }

  lemma {:induction false} WriteSlotsPlain(n: nat, offset: nat, bytes: seq<byte>, k: nat)
    requires Span(k) <= |bytes|
    ensures forall i | 0 <= i < k :: !WriteSlots(n, offset, bytes, k)[i].IsFence()
    decreases k
  {
    if k > 0 {
      WriteSlotsPlain(n, offset, bytes, k - 1);
    }
  }

  lemma {:induction false} WriteSlotsCut(n: nat, offset: nat, bytes: seq<byte>, k: nat, j: nat)
    requires j <= k && Span(k) <= |bytes|
    ensures Span(j) <= |bytes| && WriteSlots(n, offset, bytes, k)[..j] == WriteSlots(n, offset, bytes, j)
    decreases k
  {
    SpanOrder(j, k);
    if j < k {
      SpanOrder(k - 1, k);
      WriteSlotsCut(n, offset, bytes, k - 1, j);
      assert WriteSlots(n, offset, bytes, k)[..j] == WriteSlots(n, offset, bytes, k - 1)[..j];
    }
  }

  /** Any prefix of an attempt keeps the log in order. */
  lemma {:induction false} AttemptPrefix(imageBytes: nat, file: seq<Slot>, r: Req, k: nat)
    requires Written(imageBytes, file) && ReqOk(imageBytes, r) && Roomy(Count(file), r, k)
    ensures Written(imageBytes, file + Attempt(Count(file), r)[..k])
  {
    var n := Count(file);
    var t := Attempt(n, r);
    if k == |t| {
      assert t[..k] == t;
      AttemptIs(imageBytes, file, r);
    } else {
      CountBound(imageBytes, file);
      hide Written, Count, Span, Blocks, RangeOk;
      WriteSlotsCut(n, r.offset, r.bytes, Blocks(|r.bytes|), k);
      assert t[..k] == WriteSlots(n, r.offset, r.bytes, k);
      WriteSlotsImage(imageBytes, file, r.offset, r.bytes, k);
    }
  }

  // ----- the machine ---------------------------------------------------------

  datatype Phase = Down | Idle | Running(r: Req) | Ready(r: Req, data: seq<byte>) | Failing(r: Req)

  /** The guest's ring and used count, the log's file, and the daemon. */
  datatype Machine = Machine(ring: seq<Req>, posted: nat, used: nat, outcomes: seq<Outcome>,
                             file: seq<Slot>, synced: nat, cursor: u16, phase: Phase)

  /**
   * What the machine stands for: all requests posted, which of the published
   * ones took effect, the slots settled before the current attempt, how far it
   * got, whether it already took effect (`ahead`), and whether it belongs to a
   * request already answered with an error (`doubt`).
   */
  datatype Book = Book(requests: seq<Req>, effects: seq<bool>, base: nat, k: nat, torn: bool, ahead: bool, doubt: bool)

  datatype Sys = Sys(m: Machine, b: Book)

  datatype Event = Post(r: Req) | Restart(disk: seq<Slot>) | Fetch | Append | Tear | Finish(ok: bool) | Publish | Kill

  datatype World = World(imageBytes: nat, size: nat) {
    /** Queue sizes divide the index space. */
    predicate Valid() { 0 < size <= 0x8000 && 0x1_0000 % size == 0 }
  }

  /** The request whose slots follow the settled ones. */
  function Current(b: Book): Req {
    var i := if b.doubt then |b.effects| - 1 else |b.effects|;
    if 0 <= i < |b.requests| then b.requests[i] else Other
  }

  ghost function Opens(c: World, s: Sys, disk: seq<Slot>): Sys {
    var n := Committed(disk);
    var took := n > s.b.base;
    var outstanding := Sub16(Low16(s.m.posted), Low16(s.m.used));
    if !Written(c.imageBytes, disk[..n]) || outstanding > c.size then s
    else
      Sys(s.m.(file := disk[..n], synced := n, cursor := Low16(s.m.used), phase := Idle),
          if s.b.doubt && |s.b.effects| > 0
          then s.b.(effects := s.b.effects[|s.b.effects| - 1 := s.b.effects[|s.b.effects| - 1] || took],
                    base := n, k := 0, torn := false, doubt := false)
          else s.b.(ahead := s.b.ahead || took, base := n, k := 0, torn := false))
  }

  ghost function Next(c: World, s: Sys, e: Event): Sys {
    var m := s.m;
    match e
    case Post(r) =>
      // the guest keeps at most a ringful outstanding
      if c.size == 0 || |m.ring| != c.size || m.posted >= m.used + c.size || !ReqOk(c.imageBytes, r) then s
      else Sys(m.(ring := m.ring[m.posted % c.size := r], posted := m.posted + 1), s.b.(requests := s.b.requests + [r]))
    case Kill => s.(m := m.(phase := Down))
    case Restart(disk) => if m.phase.Down? && Survivor(m.file, m.synced, disk) then Opens(c, s, disk) else s
    case Fetch =>
      if !m.phase.Idle? || m.cursor == Low16(m.posted) || c.size == 0 || |m.ring| != c.size then s
      else s.(m := m.(phase := Running(m.ring[m.cursor % c.size])))
    case Append =>
      if !m.phase.Running? then s else
      var t := Attempt(Count(m.file[..if s.b.base <= |m.file| then s.b.base else 0]), m.phase.r);
      if s.b.k >= |t| || (!t[s.b.k].IsFence() && Count(m.file) >= U64_MAX) then s
      else Sys(m.(file := m.file + [t[s.b.k]]), s.b.(k := s.b.k + 1))
    case Tear =>
      if !m.phase.Running? || !m.phase.r.Write? then s
      else Sys(m.(file := m.file + [Damaged], phase := Failing(m.phase.r)), s.b.(torn := true))
    case Finish(ok) =>
      if !m.phase.Running? then s
      else if !ok then s.(m := m.(phase := Failing(m.phase.r)))
      else if m.phase.r.Write? then
        var t := Attempt(Count(m.file[..if s.b.base <= |m.file| then s.b.base else 0]), m.phase.r);
        if s.b.k == |t| then s.(m := m.(synced := |m.file|, phase := Ready(m.phase.r, []))) else s
      else s.(m := m.(phase := Ready(m.phase.r, Answer(ImageOf(c.imageBytes, m.file), m.phase.r))))
    case Publish =>
      if m.phase.Ready? then
        Sys(m.(used := m.used + 1, outcomes := m.outcomes + [Outcome.Ok(m.phase.data)], cursor := Next16(m.cursor),
          phase := Idle),
            s.b.(effects := s.b.effects + [true], base := |m.file|, k := 0, ahead := false))
      else if m.phase.Failing? then
        // an image failure answers with an error and shuts down
        Sys(m.(used := m.used + 1, outcomes := m.outcomes + [IoErr], cursor := Next16(m.cursor), phase := Down),
            s.b.(effects := s.b.effects + [s.b.ahead], ahead := false, doubt := true))
      else s
  }

  // ----- what every run keeps ------------------------------------------------

  /** The guest's side: each outstanding request is still in its ring slot. */
  ghost predicate RingInv(c: World, s: Sys) {
    var m := s.m; var b := s.b;
    && c.Valid() && |m.ring| == c.size
    && |b.requests| == m.posted && |b.effects| == m.used == |m.outcomes|
    && m.used <= m.posted <= m.used + c.size
    && (forall i | 0 <= i < m.posted :: ReqOk(c.imageBytes, b.requests[i]))
    && (forall i | m.used <= i < m.posted :: m.ring[i % c.size] == b.requests[i])
  }

  /** The image the settled slots hold. */
  function Settled(c: World, b: Book): (image: seq<byte>)
    requires |b.effects| <= |b.requests|
    ensures |image| == c.imageBytes
  {
    var image := Applied(c.imageBytes, b.requests, b.effects);
    if b.ahead then Do(image, Current(b)) else image
  }

  /** The file: settled slots up to a fence, then part of one attempt. */
  ghost predicate LogInv(c: World, s: Sys)
    requires |s.b.effects| <= |s.b.requests|
  {
    var m := s.m; var b := s.b;
    && b.base <= |m.file| && Written(c.imageBytes, m.file[..b.base])
    && (b.base == 0 || m.file[b.base - 1].IsFence())
    && ImageOf(c.imageBytes, m.file[..b.base]) == Settled(c, b)
    && var n := Count(m.file[..b.base]);
       && Roomy(n, Current(b), b.k)
       && m.file == m.file[..b.base] + Attempt(n, Current(b))[..b.k] + (if b.torn then [Damaged] else [])
       && (m.synced == b.base || (m.synced == |m.file| && b.k == |Attempt(n, Current(b))| && !b.torn))
  }

  ghost predicate PhaseInv(c: World, s: Sys)
    requires |s.b.effects| <= |s.b.requests|
  {
    var m := s.m; var b := s.b;
    && (b.doubt ==>
         m.phase.Down? && !b.ahead && |b.effects| > 0 && |m.outcomes| == |b.effects| &&
         m.outcomes[|b.effects| - 1].IoErr?)
    && (b.ahead || b.torn ==> Current(b).Write?)
    && (!m.phase.Down? ==> m.cursor == Low16(m.used))
    && match m.phase
       case Down => true
       case Idle => b.k == 0 && !b.torn && m.synced == b.base
       case Running(r) => m.used < m.posted && r == Current(b) && !b.torn && m.synced == b.base
       case Ready(r, data) =>
         && m.used < m.posted && r == Current(b) && !b.torn && m.synced == |m.file|
         && (b.base <= |m.file| ==> b.k == |Attempt(Count(m.file[..b.base]), r)|)
         && data == Answer(Applied(c.imageBytes, b.requests, b.effects), r)
       case Failing(r) => m.used < m.posted && r == Current(b)
  }

  /** Every answer is a plain disk's. */
  ghost predicate AnswerInv(c: World, s: Sys)
    requires |s.b.effects| <= |s.b.requests| && |s.m.outcomes| == |s.b.effects|
  {
    forall i | 0 <= i < |s.m.outcomes| && s.m.outcomes[i].Ok? ::
      && s.b.effects[i]
      && s.m.outcomes[i].data == Answer(Applied(c.imageBytes, s.b.requests, s.b.effects[..i]), s.b.requests[i])
  }

  ghost predicate Inv(c: World, s: Sys) {
    RingInv(c, s) && LogInv(c, s) && PhaseInv(c, s) && AnswerInv(c, s)
  }

  lemma {:induction false} AppliedMore(imageBytes: nat, requests: seq<Req>, r: Req, effects: seq<bool>)
    requires |effects| <= |requests|
    ensures Applied(imageBytes, requests + [r], effects) == Applied(imageBytes, requests, effects)
    decreases |effects|
  {
    if effects != [] {
      AppliedMore(imageBytes, requests, r, effects[..|effects| - 1]);
    }
  }

  lemma {:induction false} Spread(size: nat, d: int)
    ensures d >= 1 ==> size * d >= size
    ensures d <= -1 ==> size * d <= 0 - size
  {
  }

  /** Quotient and remainder are unique. */
  lemma {:induction false} Euclid(size: nat, p: nat, t: nat, q: nat, r: nat)
    requires t < size && r < size && size * p + t == size * q + r
    ensures t == r
  {
    var d := p - q;
    assert size * p - size * q == size * d;
    Spread(size, d);
  }

  lemma {:induction false} ModUnique(a: nat, size: nat, q: nat, r: nat)
    requires r < size && a == size * q + r
    ensures a % size == r
  {
    Euclid(size, a / size, a % size, q, r);
  }

  /** A 16-bit index names the same ring slot as the count it shows. */
  lemma {:induction false} LowMod(u: nat, size: nat)
    requires 0 < size && 0x1_0000 % size == 0
    ensures Low16(u) % size == u % size
  {
    var c := 0x1_0000 / size;
    var q := u / 0x1_0000;
    var l := Low16(u);
    var p := l / size;
    var r := l % size;
    assert l == size * p + r;
    assert u == 0x1_0000 * q + l && 0x1_0000 == size * c;
    assert (size * c) * q == size * (c * q);
    assert size * (c * q) + size * p == size * (c * q + p);
    ModUnique(u, size, c * q + p, r);
  }

  lemma {:induction false} SlotsApart(i: nat, j: nat, size: nat)
    requires i < j < i + size
    ensures i % size != j % size
  {
    var p, q := i / size, j / size;
    assert i == size * p + i % size && j == size * q + j % size;
    assert size * q - size * p == size * (q - p);
    Spread(size, q - p);
  }

  /** The distance between the indices, although they wrap. */
  lemma {:induction false} Distance(posted: nat, used: nat)
    requires used <= posted < used + 0x1_0000
    ensures Sub16(Low16(posted), Low16(used)) == posted - used
    ensures Low16(posted) == Low16(used) <==> posted == used
  {
    var p, q := posted / 0x1_0000, used / 0x1_0000;
    assert posted == 0x1_0000 * p + Low16(posted) && used == 0x1_0000 * q + Low16(used);
  }

  // ----- each event keeps it -------------------------------------------------

  lemma {:induction false} PostRing(c: World, s: Sys, r: Req)
    requires RingInv(c, s)
    ensures RingInv(c, Next(c, s, Post(r)))
  {
    var t := Next(c, s, Post(r));
    if t != s {
      forall i | t.m.used <= i < t.m.posted ensures t.m.ring[i % c.size] == t.b.requests[i] {
        if i < s.m.posted {
          SlotsApart(i, s.m.posted, c.size);
        }
      }
    }
  }

  /** What a posted request changes. */
  ghost predicate Posts(s: Sys, t: Sys, r: Req) {
    && t.b == s.b.(requests := s.b.requests + [r]) && t.m == s.m.(ring := t.m.ring, posted := s.m.posted + 1)
    && |s.b.requests| == s.m.posted && |s.b.effects| == s.m.used == |s.m.outcomes| && s.m.used <= s.m.posted
    && (Current(t.b) == Current(s.b) || (!s.b.doubt && s.m.used == s.m.posted && Current(s.b) == Other))
  }

  lemma {:induction false} PostIs(c: World, s: Sys, r: Req)
    requires RingInv(c, s)
    ensures Next(c, s, Post(r)) != s ==> Posts(s, Next(c, s, Post(r)), r)
  {
  }

  /** Posted behind the current request it changes nothing; posted first, it becomes current. */
  lemma {:induction false} PostLog(c: World, s: Sys, t: Sys, r: Req)
    requires Posts(s, t, r) && LogInv(c, s) && PhaseInv(c, s)
    ensures LogInv(c, t)
  {
    hide Written, Count, ImageOf, Applied, Do, WriteSlots;
    AppliedMore(c.imageBytes, s.b.requests, r, s.b.effects);
    if Current(t.b) != Current(s.b) {
      assert Attempt(Count(s.m.file[..s.b.base]), Other) == [];
      assert Attempt(Count(s.m.file[..s.b.base]), Current(t.b))[..0] == [];
    }
  }

  lemma {:induction false} PostPhase(c: World, s: Sys, t: Sys, r: Req)
    requires Posts(s, t, r) && PhaseInv(c, s)
    ensures PhaseInv(c, t)
  {
    hide Count, Applied, Answer, Attempt;
    AppliedMore(c.imageBytes, s.b.requests, r, s.b.effects);
  }

  lemma {:induction false} PostKeeps(c: World, s: Sys, r: Req)
    requires Inv(c, s)
    ensures Inv(c, Next(c, s, Post(r)))
  {
    var t := Next(c, s, Post(r));
    hide RingInv, LogInv, PhaseInv, Applied, Answer, Next;
    PostRing(c, s, r);
    PostIs(c, s, r);
    if t != s {
      PostLog(c, s, t, r);
      PostPhase(c, s, t, r);
      forall i | 0 <= i < |t.m.outcomes| && t.m.outcomes[i].Ok?
        ensures t.b.effects[i] &&
          t.m.outcomes[i].data == Answer(Applied(c.imageBytes, t.b.requests, t.b.effects[..i]), t.b.requests[i])
      {
        AppliedMore(c.imageBytes, s.b.requests, r, s.b.effects[..i]);
      }
    }
  }

  lemma {:induction false} KillKeeps(c: World, s: Sys)
    requires Inv(c, s)
    ensures Inv(c, Next(c, s, Kill))
  {
    hide Written, Count, ImageOf, Applied, Answer, Attempt, Roomy;
  }

  /** What is fetched is the first request without a used entry. */
  lemma {:induction false} FetchIs(c: World, s: Sys)
    requires RingInv(c, s) && PhaseInv(c, s) && s.m.phase.Idle?
    ensures Low16(s.m.posted) == s.m.cursor <==> s.m.posted == s.m.used
    ensures s.m.used < s.m.posted ==> s.m.ring[s.m.cursor % c.size] == s.b.requests[s.m.used] == Current(s.b)
  {
    Distance(s.m.posted, s.m.used);
    LowMod(s.m.used, c.size);
    hide Low16, Sub16;
  }

  lemma {:induction false} FetchKeeps(c: World, s: Sys)
    requires Inv(c, s)
    ensures Inv(c, Next(c, s, Fetch))
  {
    hide Written, Count, ImageOf, Applied, Answer, Attempt, Roomy, Low16;
    if s.m.phase.Idle? {
      FetchIs(c, s);
    }
  }

  lemma {:induction false} AttemptCount(imageBytes: nat, file: seq<Slot>, r: Req, k: nat)
    requires Written(imageBytes, file) && ReqOk(imageBytes, r) && Roomy(Count(file), r, k) &&
      k < |Attempt(Count(file), r)|
    ensures Count(file + Attempt(Count(file), r)[..k]) == Count(file) + k <= U64_MAX
  {
    var n := Count(file);
    CountBound(imageBytes, file);
    hide Written, Count, Span, Blocks, RangeOk;
    WriteSlotsCut(n, r.offset, r.bytes, Blocks(|r.bytes|), k);
    assert Attempt(n, r)[..k] == WriteSlots(n, r.offset, r.bytes, k);
    WriteSlotsImage(imageBytes, file, r.offset, r.bytes, k);
  }

  /** The next slot of an attempt still fits. */
  lemma {:induction false} AttemptRoom(imageBytes: nat, file: seq<Slot>, r: Req, k: nat)
    requires Written(imageBytes, file) && ReqOk(imageBytes, r) && Roomy(Count(file), r, k) &&
      k < |Attempt(Count(file), r)|
    requires !Attempt(Count(file), r)[k].IsFence() ==> Count(file + Attempt(Count(file), r)[..k]) < U64_MAX
    ensures Roomy(Count(file), r, k + 1)
  {
    AttemptCount(imageBytes, file, r, k);
    AttemptFence(Count(file), r);
    hide Written, Count, Attempt;
  }

  lemma {:induction false} CurrentOk(c: World, s: Sys)
    requires RingInv(c, s)
    ensures ReqOk(c.imageBytes, Current(s.b))
  {
  }

  lemma {:induction false} AppendKeeps(c: World, s: Sys)
    requires Inv(c, s)
    ensures Inv(c, Next(c, s, Append))
  {
    var t := Next(c, s, Append);
    CurrentOk(c, s);
    hide Written, Count, ImageOf, Applied, Answer, Attempt, Roomy, RingInv, Current, ReqOk;
    if t != s {
      var f := s.m.file[..s.b.base];
      var a := Attempt(Count(f), Current(s.b));
      assert s.m.file == f + a[..s.b.k];
      AttemptRoom(c.imageBytes, f, Current(s.b), s.b.k);
      assert t.m.file[..s.b.base] == f;
      assert t.m.file == f + a[..s.b.k + 1];
      AppendRing(c, s);
    }
  }

  lemma {:induction false} AppendRing(c: World, s: Sys)
    requires RingInv(c, s)
    ensures RingInv(c, Next(c, s, Append))
    ensures Current(Next(c, s, Append).b) == Current(s.b)
  {
    hide Count, Attempt;
  }

  lemma {:induction false} TearKeeps(c: World, s: Sys)
    requires Inv(c, s)
    ensures Inv(c, Next(c, s, Tear))
  {
    var t := Next(c, s, Tear);
    hide Written, Count, ImageOf, Applied, Answer, Attempt, Roomy, ReqOk;
    if t != s {
      assert t.m.file[..s.b.base] == s.m.file[..s.b.base];
    }
  }

  lemma {:induction false} NothingLogged(n: nat, r: Req)
    ensures !r.Write? ==> Attempt(n, r) == []
  {
  }

  lemma {:induction false} FinishKeeps(c: World, s: Sys, ok: bool)
    requires Inv(c, s)
    ensures Inv(c, Next(c, s, Finish(ok)))
  {
    hide Written, Count, ImageOf, Applied, Attempt, ReqOk, Do;
    if s.m.phase.Running? {
      NothingLogged(Count(s.m.file[..s.b.base]), s.m.phase.r);
      assert !s.m.phase.r.Write? ==> s.m.file == s.m.file[..s.b.base];
    }
  }

  // ----- publication ---------------------------------------------------------

  lemma {:induction false} AppliedLast(imageBytes: nat, requests: seq<Req>, effects: seq<bool>, took: bool)
    requires |effects| < |requests|
    ensures Applied(imageBytes, requests, effects + [took]) ==
      if took then Do(Applied(imageBytes, requests, effects), requests[|effects|])
        else Applied(imageBytes, requests, effects)
  {
    assert (effects + [took])[..|effects|] == effects;
  }

  /** A published execution leaves the image one request further on. */
  lemma {:induction false} ReadyImage(c: World, s: Sys)
    requires Inv(c, s) && s.m.phase.Ready?
    ensures |s.b.effects| < |s.b.requests|
    ensures Written(c.imageBytes, s.m.file)
    ensures |s.m.file| == 0 || s.m.file[|s.m.file| - 1].IsFence()
    ensures ImageOf(c.imageBytes, s.m.file) == Applied(c.imageBytes, s.b.requests, s.b.effects + [true])
  {
    var f := s.m.file[..s.b.base];
    var r := Current(s.b);
    CurrentOk(c, s);
    hide Written, Count, ImageOf, Applied, Attempt, ReqOk, Do;
    AttemptIs(c.imageBytes, f, r);
    var a := Attempt(Count(f), r);
    assert a[..|a|] == a;
    assert s.m.file == f + a;
    AttemptFence(Count(f), r);
    DoTwice(Applied(c.imageBytes, s.b.requests, s.b.effects), r);
    AppliedLast(c.imageBytes, s.b.requests, s.b.effects, true);
  }

  lemma {:induction false} ReadyFacts(c: World, s: Sys)
    requires Inv(c, s) && s.m.phase.Ready?
    ensures s.m.synced == |s.m.file| && !s.b.torn && s.m.cursor == Low16(s.m.used) && !s.b.doubt
    ensures |s.b.effects| == s.m.used == |s.m.outcomes| < |s.b.requests| == s.m.posted
    ensures Current(s.b) == s.b.requests[|s.b.effects|] == s.m.phase.r
    ensures s.m.phase.data == Answer(Applied(c.imageBytes, s.b.requests, s.b.effects), s.m.phase.r)
  {
    hide LogInv, AnswerInv, Applied, Answer, Attempt, Count;
  }

  lemma {:induction false} PublishIs(c: World, s: Sys)
    requires s.m.phase.Ready?
    ensures Next(c, s, Publish) ==
      Sys(s.m.(used := s.m.used + 1, outcomes := s.m.outcomes + [Outcome.Ok(s.m.phase.data)],
        cursor := Next16(s.m.cursor), phase := Idle),
          s.b.(effects := s.b.effects + [true], base := |s.m.file|, k := 0, ahead := false))
  {
  }

  lemma {:induction false} PublishLog(c: World, s: Sys)
    requires Inv(c, s) && s.m.phase.Ready?
    ensures |Next(c, s, Publish).b.effects| <= |Next(c, s, Publish).b.requests|
    ensures LogInv(c, Next(c, s, Publish)) && PhaseInv(c, Next(c, s, Publish))
  {
    hide Inv, Next, Written, Count, ImageOf, Applied, Attempt, Low16;
    ReadyImage(c, s);
    ReadyFacts(c, s);
    NextLow(s.m.used);
    PublishIs(c, s);
    var t := Next(c, s, Publish);
    assert s.m.file[..|s.m.file|] == s.m.file;
    assert Attempt(Count(s.m.file), Current(t.b))[..0] == [];
  }

  lemma {:induction false} NextLow(n: nat)
    ensures Next16(Low16(n)) == Low16(n + 1)
  {
  }

  lemma {:induction false} AnswersKept(c: World, s: Sys, o: Outcome, took: bool)
    requires |s.b.effects| < |s.b.requests| && |s.m.outcomes| == |s.b.effects| && AnswerInv(c, s)
    requires o.Ok? ==>
      took &&
      o.data == Answer(Applied(c.imageBytes, s.b.requests, s.b.effects), s.b.requests[|s.b.effects|])
    ensures AnswerInv(c, Sys(s.m.(outcomes := s.m.outcomes + [o]), s.b.(effects := s.b.effects + [took])))
  {
    hide Applied, Answer;
    var e := s.b.effects + [took];
    forall i | 0 <= i <= |s.m.outcomes| ensures e[..i] == s.b.effects[..i] {
    }
    assert e[..|s.b.effects|] == s.b.effects;
  }

  lemma {:induction false} RingServed(c: World, s: Sys, m: Machine, b: Book)
    requires RingInv(c, s) && s.m.used < s.m.posted
    requires m.ring == s.m.ring && m.posted == s.m.posted && m.used == s.m.used + 1 == |m.outcomes| == |b.effects| &&
      b.requests == s.b.requests
    ensures RingInv(c, Sys(m, b))
  {
    hide ReqOk;
  }

  lemma {:induction false} PublishKeeps(c: World, s: Sys)
    requires Inv(c, s)
    ensures Inv(c, Next(c, s, Publish))
  {
    hide Inv;
    if s.m.phase.Ready? {
      PublishOk(c, s);
    } else if s.m.phase.Failing? {
      PublishError(c, s);
    }
  }

  lemma {:induction false} PublishErrorIs(c: World, s: Sys)
    requires s.m.phase.Failing?
    ensures Next(c, s, Publish) ==
      Sys(s.m.(used := s.m.used + 1, outcomes := s.m.outcomes + [IoErr], cursor := Next16(s.m.cursor), phase := Down),
          s.b.(effects := s.b.effects + [s.b.ahead], ahead := false, doubt := true))
  {
  }

  lemma {:induction false} PublishErrorPhase(c: World, s: Sys)
    requires Inv(c, s) && s.m.phase.Failing? && |s.b.effects| < |s.b.requests| && |s.m.outcomes| == |s.b.effects|
    ensures PhaseInv(c, Sys(s.m.(used := s.m.used + 1, outcomes := s.m.outcomes + [IoErr],
      cursor := Next16(s.m.cursor), phase := Down),
      s.b.(effects := s.b.effects + [s.b.ahead], ahead := false, doubt := true)))
  {
    hide RingInv, LogInv, AnswerInv, Applied, Answer, Attempt, Count;
  }

  lemma {:induction false} PublishError(c: World, s: Sys)
    requires Inv(c, s) && s.m.phase.Failing?
    ensures Inv(c, Next(c, s, Publish))
  {
    hide LogInv, RingInv, PhaseInv, Applied, Answer, Low16, Next;
    PublishErrorLog(c, s);
    PublishErrorIs(c, s);
    FailingFacts(c, s);
    PublishErrorPhase(c, s);
    var t := Next(c, s, Publish);
    RingServed(c, s, t.m, t.b);
    AnswersKept(c, s, IoErr, s.b.ahead);
  }

  lemma {:induction false} FailingFacts(c: World, s: Sys)
    requires Inv(c, s) && s.m.phase.Failing?
    ensures |s.b.effects| == s.m.used == |s.m.outcomes| < |s.b.requests| == s.m.posted
  {
    hide LogInv, AnswerInv, Applied, Answer, Attempt, Count;
  }

  lemma {:induction false} PublishOk(c: World, s: Sys)
    requires Inv(c, s) && s.m.phase.Ready?
    ensures Inv(c, Next(c, s, Publish))
  {
    hide LogInv, RingInv, PhaseInv, Applied, Answer, Low16, Next;
    PublishLog(c, s);
    PublishIs(c, s);
    ReadyFacts(c, s);
    var t := Next(c, s, Publish);
    RingServed(c, s, t.m, t.b);
    AnswersKept(c, s, Outcome.Ok(s.m.phase.data), true);
  }

  lemma {:induction false} PublishErrorLog(c: World, s: Sys)
    requires Inv(c, s) && s.m.phase.Failing?
    ensures |Next(c, s, Publish).b.effects| <= |Next(c, s, Publish).b.requests|
    ensures LogInv(c, Next(c, s, Publish))
  {
    hide Written, Count, ImageOf, Applied, Attempt, ReqOk, Do, Low16, Roomy;
    AppliedLast(c.imageBytes, s.b.requests, s.b.effects, s.b.ahead);
  }

  // ----- restart -------------------------------------------------------------

  /** The file is one a log may leave behind, whatever the attempt got to. */
  lemma {:induction false} FileLeft(c: World, s: Sys)
    requires RingInv(c, s) && LogInv(c, s)
    ensures Left(c.imageBytes, s.m.file, s.b.base + s.b.k, s.m.synced)
    ensures s.m.file[..s.b.base + s.b.k] == s.m.file[..s.b.base] +
      Attempt(Count(s.m.file[..s.b.base]), Current(s.b))[..s.b.k]
  {
    var f := s.m.file[..s.b.base];
    var r := Current(s.b);
    CurrentOk(c, s);
    hide RingInv, Written, Count, ImageOf, Applied, Attempt, ReqOk, Do, Current;
    AttemptPrefix(c.imageBytes, f, r, s.b.k);
    AttemptFence(Count(f), r);
    assert s.m.file[..s.b.base + s.b.k] == f + Attempt(Count(f), r)[..s.b.k];
  }

  /** What survives is the settled slots, or those and the whole attempt. */
  lemma {:induction false} Survives(c: World, s: Sys, disk: seq<Slot>)
    requires RingInv(c, s) && LogInv(c, s) && Survivor(s.m.file, s.m.synced, disk) &&
      Written(c.imageBytes, disk[..Committed(disk)])
    ensures var n := Committed(disk); var a := Attempt(Count(s.m.file[..s.b.base]), Current(s.b));
      && s.b.base <= n <= |s.m.file| && disk[..n] == s.m.file[..n]
      && (n == 0 || s.m.file[n - 1].IsFence())
      && (n > s.b.base ==> |a| > 0 && s.b.k == |a| && s.m.file[..n] == s.m.file[..s.b.base] + a)
  {
    FileLeft(c, s);
    CrashSafe(c.imageBytes, s.m.file, s.b.base + s.b.k, s.m.synced, disk);
    var f := s.m.file[..s.b.base];
    var n := Committed(disk);
    AttemptFence(Count(f), Current(s.b));
    hide RingInv, Written, Count, ImageOf, Applied, Attempt, ReqOk, Do, Current, Left, Survivor, FenceAfterDamage;
    var a := Attempt(Count(f), Current(s.b));
    if n > 0 {
      assert disk[..n][n - 1] == s.m.file[..n][n - 1];
    }
    if n > s.b.base {
      assert s.m.file[n - 1] == s.m.file[..s.b.base + s.b.k][n - 1] == a[..s.b.k][n - 1 - s.b.base];
      assert a[n - 1 - s.b.base].IsFence();
      assert a[..|a|] == a;
    }
  }

  lemma {:induction false} TookImage(c: World, s: Sys)
    requires RingInv(c, s) && LogInv(c, s)
    requires s.b.k == |Attempt(Count(s.m.file[..s.b.base]), Current(s.b))|
    ensures var a := Attempt(Count(s.m.file[..s.b.base]), Current(s.b));
      ImageOf(c.imageBytes, s.m.file[..s.b.base] + a) ==
        Do(Applied(c.imageBytes, s.b.requests, s.b.effects), Current(s.b))
  {
    var f := s.m.file[..s.b.base];
    CurrentOk(c, s);
    hide RingInv, Written, Count, ImageOf, Applied, Attempt, ReqOk, Do, Current;
    AttemptIs(c.imageBytes, f, Current(s.b));
    DoTwice(Applied(c.imageBytes, s.b.requests, s.b.effects), Current(s.b));
  }

  /** The image the recovered slots hold is the one the books then show. */
  lemma {:induction false} OpensImage(c: World, s: Sys, disk: seq<Slot>)
    requires RingInv(c, s) && LogInv(c, s) && PhaseInv(c, s)
    requires Survivor(s.m.file, s.m.synced, disk) && Written(c.imageBytes, disk[..Committed(disk)])
    ensures Sub16(Low16(s.m.posted), Low16(s.m.used)) <= c.size
    ensures |Opens(c, s, disk).b.effects| == |s.b.effects| <= |s.b.requests| &&
      Opens(c, s, disk).b.requests == s.b.requests
    ensures ImageOf(c.imageBytes, disk[..Committed(disk)]) == Settled(c, Opens(c, s, disk).b)
    ensures Opens(c, s, disk).b.ahead ==> Current(Opens(c, s, disk).b).Write?
  {
    hide Written, Count, ImageOf, Attempt, ReqOk, Do, Low16, Sub16, Applied, Survivor, Roomy, Answer;
    Survives(c, s, disk);
    Distance(s.m.posted, s.m.used);
    var took := Committed(disk) > s.b.base;
    if took {
      TookImage(c, s);
      NothingLogged(Count(s.m.file[..s.b.base]), Current(s.b));
    }
    if s.b.doubt {
      DoubtImage(c, s.b, took);
    }
  }

  lemma {:induction false} DoubtImage(c: World, b: Book, took: bool)
    requires 0 < |b.effects| <= |b.requests|
    ensures var n := |b.effects| - 1;
      Applied(c.imageBytes, b.requests, b.effects[n := b.effects[n] || took]) ==
      if took then Do(Applied(c.imageBytes, b.requests, b.effects), b.requests[n])
        else Applied(c.imageBytes, b.requests, b.effects)
  {
    var n := |b.effects| - 1;
    var before := b.effects[..n];
    assert b.effects == before + [b.effects[n]];
    assert b.effects[n := b.effects[n] || took] == before + [b.effects[n] || took];
    AppliedLast(c.imageBytes, b.requests, before, b.effects[n]);
    AppliedLast(c.imageBytes, b.requests, before, b.effects[n] || took);
    DoTwice(Applied(c.imageBytes, b.requests, before), b.requests[n]);
  }

  /** What a restart leaves of the state. */
  ghost predicate Restarts(c: World, s: Sys, t: Sys, disk: seq<Slot>) {
    && t.m == s.m.(file := disk[..Committed(disk)], synced := Committed(disk), cursor := Low16(s.m.used), phase := Idle)
    && t.b == s.b.(effects := t.b.effects, ahead := t.b.ahead, base := Committed(disk), k := 0, torn := false,
         doubt := false)
    && |t.b.effects| == |s.b.effects| && (!s.b.doubt ==> t.b.effects == s.b.effects)
    && (forall i | 0 <= i < |s.b.effects| - 1 :: t.b.effects[i] == s.b.effects[i])
    && (s.b.doubt ==> !t.b.ahead == !s.b.ahead)
  }

  lemma {:induction false} OpensIs(c: World, s: Sys, disk: seq<Slot>)
    requires Written(c.imageBytes, disk[..Committed(disk)]) && Sub16(Low16(s.m.posted), Low16(s.m.used)) <= c.size
    requires s.b.doubt ==> |s.b.effects| > 0
    ensures Restarts(c, s, Opens(c, s, disk), disk)
  {
    hide Written, Low16, Sub16;
  }

  lemma {:induction false} RestartRing(c: World, s: Sys, t: Sys, disk: seq<Slot>)
    requires RingInv(c, s) && Restarts(c, s, t, disk)
    ensures RingInv(c, t)
  {
    hide ReqOk, Low16;
  }

  lemma {:induction false} RestartLog(c: World, s: Sys, t: Sys, disk: seq<Slot>)
    requires Restarts(c, s, t, disk) && |t.b.effects| <= |t.b.requests|
    requires var n := Committed(disk);
      Written(c.imageBytes, disk[..n]) && ImageOf(c.imageBytes, disk[..n]) == Settled(c, t.b)
    requires t.b.ahead ==> Current(t.b).Write?
    ensures LogInv(c, t) && PhaseInv(c, t)
  {
    hide Written, ImageOf, Settled, Low16;
    var n := Committed(disk);
    var f := disk[..n];
    assert f[..n] == f;
    assert Attempt(Count(f), Current(t.b))[..0] == [];
  }

  lemma {:induction false} RestartAnswers(c: World, s: Sys, t: Sys, disk: seq<Slot>)
    requires Restarts(c, s, t, disk) && |s.b.effects| <= |s.b.requests| && |s.m.outcomes| == |s.b.effects|
    requires PhaseInv(c, s) && AnswerInv(c, s)
    ensures AnswerInv(c, t)
  {
    hide Applied, Answer, Low16, Attempt, Count;
    forall i | 0 <= i < |t.m.outcomes| && t.m.outcomes[i].Ok?
      ensures t.b.effects[i] &&
        t.m.outcomes[i].data == Answer(Applied(c.imageBytes, t.b.requests, t.b.effects[..i]), t.b.requests[i])
    {
      assert t.b.effects[..i] == s.b.effects[..i];
      if s.b.doubt { assert i != |s.b.effects| - 1; }
    }
  }

  lemma {:induction false} DoubtPublished(c: World, s: Sys)
    requires Inv(c, s)
    ensures s.b.doubt ==> |s.b.effects| > 0
    ensures |s.b.effects| <= |s.b.requests| && |s.m.outcomes| == |s.b.effects|
  {
  }

  lemma {:induction false} RestartKeeps(c: World, s: Sys, disk: seq<Slot>)
    requires Inv(c, s)
    ensures Inv(c, Next(c, s, Restart(disk)))
  {
    DoubtPublished(c, s);
    hide RingInv, LogInv, PhaseInv, AnswerInv, Written, Survivor, Opens, Restarts, Settled, Current, Low16, Sub16;
    if s.m.phase.Down? && Survivor(s.m.file, s.m.synced, disk) {
      var t := Opens(c, s, disk);
      if Written(c.imageBytes, disk[..Committed(disk)]) {
        OpensImage(c, s, disk);
        OpensIs(c, s, disk);
        RestartRing(c, s, t, disk);
        RestartLog(c, s, t, disk);
        RestartAnswers(c, s, t, disk);
        RestartSizes(c, s, t, disk);
      } else {
        OpensRefused(c, s, disk);
      }
    }
  }

  lemma {:induction false} RestartSizes(c: World, s: Sys, t: Sys, disk: seq<Slot>)
    requires Restarts(c, s, t, disk)
    ensures t.m.outcomes == s.m.outcomes && |t.b.effects| == |s.b.effects| && t.b.requests == s.b.requests
  {
  }

  lemma {:induction false} OpensRefused(c: World, s: Sys, disk: seq<Slot>)
    requires !Written(c.imageBytes, disk[..Committed(disk)])
    ensures Opens(c, s, disk) == s
  {
  }

  // ----- runs ----------------------------------------------------------------

  lemma {:induction false} StepKeeps(c: World, s: Sys, e: Event)
    requires Inv(c, s)
    ensures Inv(c, Next(c, s, e))
  {
    hide Inv, Next;
    match e
    case Post(r) => PostKeeps(c, s, r);
    case Restart(disk) => RestartKeeps(c, s, disk);
    case Fetch => FetchKeeps(c, s);
    case Append => AppendKeeps(c, s);
    case Tear => TearKeeps(c, s);
    case Finish(ok) => FinishKeeps(c, s, ok);
    case Publish => PublishKeeps(c, s);
    case Kill => KillKeeps(c, s);
  }

  ghost function Exec(c: World, s: Sys, events: seq<Event>): Sys {
    if events == [] then s else Next(c, Exec(c, s, events[..|events| - 1]), events[|events| - 1])
  }

  lemma {:induction false} RunKeeps(c: World, s: Sys, events: seq<Event>)
    requires Inv(c, s)
    ensures Inv(c, Exec(c, s, events))
    decreases |events|
  {
    hide Inv, Next;
    if events != [] {
      RunKeeps(c, s, events[..|events| - 1]);
      StepKeeps(c, Exec(c, s, events[..|events| - 1]), events[|events| - 1]);
    }
  }

  /** A new log, an empty ring and no daemon yet. */
  function Fresh(c: World): Sys {
    Sys(Machine(seq(c.size, _ => Other), 0, 0, [], [], 0, 0, Down), Book([], [], 0, 0, false, false, false))
  }

  lemma {:induction false} FreshInv(c: World)
    requires c.Valid()
    ensures Inv(c, Fresh(c))
  {
  }

  /** Every request that has a used entry, executed once in ring order. */
  function Sequential(imageBytes: nat, requests: seq<Req>, n: nat): seq<byte>
    requires n <= |requests|
  {
    if n == 0 then Zeros(imageBytes) else Do(Sequential(imageBytes, requests, n - 1), requests[n - 1])
  }

  lemma {:induction false} AllTook(imageBytes: nat, requests: seq<Req>, effects: seq<bool>)
    requires |effects| <= |requests| && forall i | 0 <= i < |effects| :: effects[i]
    ensures Applied(imageBytes, requests, effects) == Sequential(imageBytes, requests, |effects|)
    decreases |effects|
  {
    if effects != [] {
      AllTook(imageBytes, requests, effects[..|effects| - 1]);
    }
  }

  /**
   * However often the daemon is killed and restarted, as long as no request was
   * answered with an error: each answer is the one sequential execution gives,
   * and whenever the daemon is idle the log holds the image after every
   * published request, or also after the next one.
   */
  lemma {:induction false} ExactlyOnce(c: World, events: seq<Event>)
    requires c.Valid()
    requires forall i | 0 <= i < |Exec(c, Fresh(c), events).m.outcomes| :: Exec(c, Fresh(c), events).m.outcomes[i].Ok?
    ensures var s := Exec(c, Fresh(c), events); var u := |s.m.outcomes|;
      && u == s.m.used <= |s.b.requests| == s.m.posted
      && (forall i | 0 <= i < u ::
           s.m.outcomes[i].data == Answer(Sequential(c.imageBytes, s.b.requests, i), s.b.requests[i]))
      && (s.m.phase.Idle? ==>
            ImageOf(c.imageBytes, s.m.file) == Sequential(c.imageBytes, s.b.requests, u) ||
            (u < |s.b.requests| && ImageOf(c.imageBytes, s.m.file) == Sequential(c.imageBytes, s.b.requests, u + 1)))
  {
    hide Exec, Inv, Fresh, ImageOf, Applied, Answer, Sequential, Current;
    FreshInv(c);
    RunKeeps(c, Fresh(c), events);
    var s := Exec(c, Fresh(c), events);
    RunFacts(c, s);
    if s.m.phase.Idle? {
      IdleImage(c, s);
      if s.b.ahead { SequentialNext(c.imageBytes, s.b); }
    }
    AllTook(c.imageBytes, s.b.requests, s.b.effects);
    forall i | 0 <= i < |s.m.outcomes|
      ensures s.m.outcomes[i].data == Answer(Sequential(c.imageBytes, s.b.requests, i), s.b.requests[i])
    {
      AllTook(c.imageBytes, s.b.requests, s.b.effects[..i]);
    }
  }

  lemma {:induction false} SequentialNext(imageBytes: nat, b: Book)
    requires |b.effects| < |b.requests|
    ensures !b.doubt ==>
      Do(Sequential(imageBytes, b.requests, |b.effects|), Current(b)) ==
      Sequential(imageBytes, b.requests, |b.effects| + 1)
  {
  }

  lemma {:induction false} RunFacts(c: World, s: Sys)
    requires Inv(c, s)
    ensures |s.b.effects| == s.m.used == |s.m.outcomes| <= |s.b.requests| == s.m.posted
    ensures AnswerInv(c, s)
  {
    hide LogInv, PhaseInv, AnswerInv;
  }

  lemma {:induction false} IdleImage(c: World, s: Sys)
    requires Inv(c, s) && s.m.phase.Idle?
    ensures !s.b.doubt && |s.b.effects| <= |s.b.requests| && ImageOf(c.imageBytes, s.m.file) == Settled(c, s.b)
    ensures s.b.ahead ==> |s.b.effects| < |s.b.requests| && Current(s.b) == s.b.requests[|s.b.effects|]
  {
    hide AnswerInv, ImageOf, Attempt, Count, Applied, Settled;
    assert s.m.file == s.m.file[..s.b.base];
  }

  /**
   * With errors allowed, a request answered with one took effect whole or not
   * at all, and everything answered Ok took effect.
   */
  lemma {:induction false} ErrorsAreWhole(c: World, events: seq<Event>)
    requires c.Valid()
    ensures var s := Exec(c, Fresh(c), events);
      && |s.b.effects| == |s.m.outcomes| <= |s.b.requests|
      && (forall i | 0 <= i < |s.m.outcomes| && s.m.outcomes[i].Ok? ::
            && s.b.effects[i]
            && s.m.outcomes[i].data == Answer(Applied(c.imageBytes, s.b.requests, s.b.effects[..i]), s.b.requests[i]))
      && (s.m.phase.Idle? ==>
            ImageOf(c.imageBytes, s.m.file) == Applied(c.imageBytes, s.b.requests, s.b.effects) ||
            (|s.b.effects| < |s.b.requests| &&
             ImageOf(c.imageBytes, s.m.file) == Applied(c.imageBytes, s.b.requests, s.b.effects + [true])))
  {
    hide Exec, Inv, Fresh, ImageOf, Applied, Answer, Current;
    FreshInv(c);
    RunKeeps(c, Fresh(c), events);
    var s := Exec(c, Fresh(c), events);
    RunFacts(c, s);
    if s.m.phase.Idle? {
      IdleImage(c, s);
      if s.b.ahead {
        AppliedLast(c.imageBytes, s.b.requests, s.b.effects, true);
      }
    }
  }

  lemma {:induction false} FileParts(c: World, s: Sys)
    requires Inv(c, s)
    ensures RingInv(c, s) && |s.b.effects| <= |s.b.requests| && LogInv(c, s) && PhaseInv(c, s)
  {
  }

  lemma {:induction false} FileKept(c: World, s: Sys)
    requires RingInv(c, s) && LogInv(c, s)
    ensures Survivor(s.m.file, s.m.synced, s.m.file)
    ensures Written(c.imageBytes, s.m.file[..Committed(s.m.file)])
  {
    FileLeft(c, s);
    hide RingInv, LogInv, Count, Attempt, Written;
    var n := s.b.base + s.b.k;
    LeftGood(c.imageBytes, s.m.file, n, s.m.synced);
    PrefixNeverCorrupt(c.imageBytes, s.m.file, n, s.m.synced, s.m.file, n);
  }

  lemma {:induction false} LeftGood(imageBytes: nat, file: seq<Slot>, next: nat, synced: nat)
    requires Left(imageBytes, file, next, synced)
    ensures Survivor(file, synced, file)
    ensures forall i | 0 <= i < next :: file[i].Good?
  {
    hide Count;
    forall i | 0 <= i < next ensures file[i].Good? {
      assert file[..next][i] == file[i];
      assert Follows(imageBytes, Count(file[..next][..i]), file[..next][i]);
    }
  }

  lemma {:induction false} RestartsIdle(c: World, s: Sys, t: Sys, disk: seq<Slot>)
    requires Restarts(c, s, t, disk)
    ensures t.m.phase.Idle?
  {
  }

  /** A killed process loses nothing it wrote, so its restart is never refused. */
  lemma {:induction false} KillRestarts(c: World, s: Sys)
    requires Inv(c, s) && s.m.phase.Down?
    ensures Next(c, s, Restart(s.m.file)).m.phase.Idle?
  {
    hide Inv, RingInv, LogInv, PhaseInv, Written, Survivor, Opens, Restarts, Settled, Current, Low16, Sub16;
    DoubtPublished(c, s);
    FileParts(c, s);
    FileKept(c, s);
    OpensImage(c, s, s.m.file);
    OpensIs(c, s, s.m.file);
    RestartsIdle(c, s, Opens(c, s, s.m.file), s.m.file);
  }
}
