/**
 * The packed log's sequencer: issue, publication in order, the durable prefix,
 * and the compacted prefix that the base image holds. The interval index must
 * always overlay the base to read as the published image.
 */
module PackedLog {
  import opened Units
  import opened IntervalIndex

  /** One mutation: a write of `data`, or zeroes over `length` bytes. */
  datatype Change = Store(offset: nat, data: seq<int>) | Clear(offset: nat, length: nat) {
    function Length(): nat { if Store? then |data| else length }
    predicate Hits(x: nat) { offset <= x < offset + Length() }
  }

  // ----- what a prefix of the mutations means --------------------------------

  /** Byte `x` once the first `n` mutations have been applied to a zero image. */
  function Content(h: seq<Change>, n: nat, x: nat): int
    requires n <= |h|
  {
    if n == 0 then 0
    else if h[n - 1].Hits(x) then
      if h[n - 1].Store? then h[n - 1].data[x - h[n - 1].offset] else 0
    else Content(h, n - 1, x)
  }

  /** Where mutation `n`, counting from one, puts byte `x`. */
  function SpotFor(h: seq<Change>, n: nat, x: nat): Spot
    requires 1 <= n <= |h| && h[n - 1].Hits(x)
  {
    match h[n - 1]
    case Store(offset, data) => Stored(Payload(n, data), x - offset, n)
    case Clear(_, _) => Zeroed(n)
  }

  /** The newest of mutations `lo + 1` to `hi` over byte `x`. */
  function Newest(h: seq<Change>, lo: nat, hi: nat, x: nat): Option<Spot>
    requires hi <= |h|
    decreases hi
  {
    if hi <= lo then None
    else if h[hi - 1].Hits(x) then Some(SpotFor(h, hi, x))
    else Newest(h, lo, hi - 1, x)
  }

  /** A read: the staged byte if there is one, else the base's. */
  function Through(spot: Option<Spot>, base: int): int {
    match spot
    case None => base
    case Some(Zeroed(_)) => 0
    case Some(Stored(p, place, _)) => if place < |p.data| then p.data[place] else base
  }

  /** Overlaying the base as of `lo` reads as the image as of `hi`. */
  lemma {:induction false} OverlayReads(h: seq<Change>, lo: nat, hi: nat, x: nat)
    requires lo <= hi <= |h|
    ensures Through(Newest(h, lo, hi, x), Content(h, lo, x)) == Content(h, hi, x)
    decreases hi
  {
    if lo < hi && !h[hi - 1].Hits(x) {
      OverlayReads(h, lo, hi - 1, x);
    }
  }

  /** So folding more of the log into the base changes no read. */
  lemma {:induction false} AdvanceUnseen(h: seq<Change>, lo: nat, mid: nat, hi: nat, x: nat)
    requires lo <= mid <= hi <= |h|
    ensures Through(Newest(h, lo, hi, x), Content(h, lo, x)) == Through(Newest(h, mid, hi, x), Content(h, mid, x))
  {
    OverlayReads(h, lo, hi, x);
    OverlayReads(h, mid, hi, x);
  }

  lemma {:induction false} NewestAfter(h: seq<Change>, lo: nat, mid: nat, hi: nat, x: nat)
    requires lo <= mid && hi <= |h|
    ensures Newest(h, mid, hi, x) == Newer(Newest(h, lo, hi, x), mid)
    decreases hi
  {
    if lo < hi && !h[hi - 1].Hits(x) {
      NewestAfter(h, lo, mid, hi - 1, x);
    }
  }

  lemma {:induction false} NewestExtend(h: seq<Change>, more: seq<Change>, lo: nat, hi: nat, x: nat)
    requires hi <= |h|
    ensures Newest(h + more, lo, hi, x) == Newest(h, lo, hi, x)
    decreases hi
  {
    if lo < hi && !h[hi - 1].Hits(x) {
      NewestExtend(h, more, lo, hi - 1, x);
    }
  }

  // ----- the sequencer -------------------------------------------------------

  datatype Fault = Failed | Pending | Invalid | Capacity | Exhausted | Stale

  /** An append whose bytes are being written: it holds mutations from `first` on. */
  datatype Submission = Submission(first: nat, changes: seq<Change>)

  ghost predicate Sound(h: seq<Change>) {
    forall i | 0 <= i < |h| :: h[i].Length() > 0
  }

  class Log {
    const index: Index
    var published: nat
    var issued: nat
    var durable: nat
    var compacted: nat
    var pending: nat
    var cohort: Option<nat>
    var failed: bool
    ghost var history: seq<Change>

    ghost predicate Valid()
      reads this, index
    {
      && compacted <= durable <= published <= issued == |history| <= U64_MAX
      && pending == issued - published
      && (cohort.Some? ==> durable <= cohort.value == issued)
      && Sound(history)
      && Disjoint(index.tree) && Backed(index.tree) && |index.tree| + 2 * pending <= index.limit
      && Overlay(index.tree, history, compacted, published)
    }

    constructor (limit: nat)
      ensures Valid() && history == [] && !failed && fresh(index) && index.limit == limit
    {
      index := new Index(limit);
      published, issued, durable, compacted, pending, cohort, failed, history := 0, 0, 0, 0, 0, None, false, [];
    }

    /** The most descriptors that surely fit, even if each splits an interval in two. */
    function Room(): (n: nat)
      reads this, index
      ensures |index.tree| + 2 * pending <= index.limit ==>
        |index.tree| + 2 * (pending + n) <= index.limit < |index.tree| + 2 * (pending + n + 1)
    {
      var free := if |index.tree| <= index.limit then (index.limit - |index.tree|) / 2 else 0;
      if pending <= free then free - pending else 0
    }

    method PrepareAppend(batch: seq<Change>) returns (res: Result<Submission, Fault>)
      requires Valid() && Sound(batch)
      modifies this
      ensures Valid() && failed == old(failed) && published == old(published) && durable == old(durable) &&
        compacted == old(compacted)
      ensures res.Ok? <==>
        !old(failed) && old(cohort).None? && batch != [] && old(issued) + |batch| <= 0xFFFF_FFFF_FFFF_FFFF &&
        |old(index.tree)| + 2 * (old(pending) + |batch|) <= index.limit
      ensures cohort == old(cohort)
      ensures res.Ok? ==> history == old(history) + batch && res.value == Submission(old(issued) + 1, batch)
      ensures res.Err? ==> history == old(history)
    {
      if failed { return Err(Failed); }
      if cohort.Some? { return Err(Pending); }
      if batch == [] { return Err(Invalid); }
      if |batch| > Room() { return Err(Capacity); }
      if issued + |batch| > U64_MAX { return Err(Exhausted); }
      OverlayExtend(index.tree, history, batch, compacted, published);
      res := Ok(Submission(issued + 1, batch));
      issued := issued + |batch|;
      pending := pending + |batch|;
      history := history + batch;
    }

    /** After its write completes. One that overtook its predecessor must wait. */
    method PublishAppend(s: Submission) returns (res: Result<(), Fault>)
      requires Valid() && 1 <= s.first && s.first - 1 + |s.changes| <= |history|
      requires s.changes == history[s.first - 1..s.first - 1 + |s.changes|]
      modifies this, index
      ensures Valid() && failed == old(failed) && history == old(history) && durable == old(durable) &&
        compacted == old(compacted)
      ensures cohort == old(cohort)
      ensures res.Ok? <==> !old(failed) && s.first == old(published) + 1
      ensures res.Ok? ==> published == old(published) + |s.changes|
      ensures res.Err? ==> published == old(published) && index.tree == old(index.tree)
    {
      if failed { return Err(Failed); }
      if s.first <= published { return Err(Invalid); }
      if s.first != published + 1 { return Err(Pending); }
      hide Disjoint, Backed, Overlay;
      var i := 0;
      while i < |s.changes|
        invariant i <= |s.changes| && unchanged(this)
        invariant Disjoint(index.tree) && Backed(index.tree) && |index.tree| + 2 * (pending - i) <= index.limit
        invariant Overlay(index.tree, history, compacted, published + i)
      {
        assert s.changes[i] == history[published + i];
        PublishOne(s.changes[i], published + i);
        i := i + 1;
      }
      published := published + |s.changes|;
      pending := pending - |s.changes|;
      res := Ok(());
    }

    /** One descriptor of a batch, mutation `at + 1`. */
    method PublishOne(c: Change, at: nat)
      requires compacted <= at < |history| && c == history[at] && Sound(history)
      requires Disjoint(index.tree) && Backed(index.tree) && |index.tree| + 2 <= index.limit
      requires Overlay(index.tree, history, compacted, at)
      modifies index
      ensures Disjoint(index.tree) && Backed(index.tree) && |index.tree| <= |old(index.tree)| + 2
      ensures Overlay(index.tree, history, compacted, at + 1)
    {
      hide Disjoint, Backed, At, Newest, SpotOf, SpotFor;
      var n := at + 1;
      var m := Mapping(c.offset + c.Length(), n, if c.Store? then Some((Payload(n, c.data), 0)) else None);
      ChangeMapping(history, n, m);
      ghost var t := index.tree;
      index.Replace(c.offset, m);
      OverlayNext(t, index.tree, history, compacted, at, m);
    }

    method PrepareFence() returns (res: Result<nat, Fault>)
      requires Valid()
      modifies this
      ensures Valid() && history == old(history) && published == old(published) && durable == old(durable) &&
        compacted == old(compacted)
      ensures failed == old(failed)
      ensures res.Ok? <==> !old(failed) && old(cohort).None?
      ensures res.Ok? ==> res.value == |history| && cohort == Some(|history|)
    {
      if failed { return Err(Failed); }
      if cohort.Some? { return Err(Pending); }
      cohort := Some(issued);
      res := Ok(issued);
    }

    /** After the fence is written and the file synced. */
    method CompleteSync(fence: nat) returns (res: Result<nat, Fault>)
      requires Valid()
      modifies this
      ensures Valid() && history == old(history) && published == old(published) && compacted == old(compacted)
      ensures res.Ok? <==> !old(failed) && old(cohort) == Some(fence) && old(published) == fence
      ensures failed == old(failed)
      ensures res.Ok? ==> durable == res.value == published == |history| && cohort.None?
      ensures res.Err? ==> durable == old(durable)
    {
      if failed { return Err(Failed); }
      if cohort != Some(fence) { return Err(Invalid); }
      if !(pending == 0 && published == fence) { return Err(Pending); }
      durable := fence;
      cohort := None;
      res := Ok(durable);
    }

    /** The base now holds every mutation up to `through`. */
    method PublishCompaction(through: nat) returns (res: Result<(), Fault>)
      requires Valid()
      modifies this, index
      ensures Valid() && history == old(history) && published == old(published) && durable == old(durable)
      ensures res.Ok? <==> !old(failed) && old(compacted) < through <= old(durable)
      ensures res.Ok? ==> compacted == through
      ensures res.Err? ==> compacted == old(compacted) && index.tree == old(index.tree)
    {
      hide Disjoint, Backed, At, Newest;
      if failed { return Err(Failed); }
      if !(compacted < through <= durable) { return Err(Stale); }
      ghost var t := index.tree;
      index.RetainAfter(through);
      OverlayLater(t, index.tree, history, compacted, through, published);
      compacted := through;
      res := Ok(());
    }

    /**
     * Read `[offset, offset + length)` through the index over a base that holds
     * the compacted prefix.
     */
    method Read(offset: nat, length: nat, base: seq<int>) returns (bytes: seq<int>)
      requires Valid() && |base| == length
      requires forall i | 0 <= i < length :: base[i] == Content(history, compacted, offset + i)
      ensures |bytes| == length
      ensures forall i | 0 <= i < length :: bytes[i] == Content(history, published, offset + i)
    {
      bytes := Lay(index, offset, base);
      forall i | 0 <= i < length ensures bytes[i] == Content(history, published, offset + i) {
        OverlayReads(history, compacted, published, offset + i);
      }
    }

    method Fail()
      requires Valid()
      modifies this
      ensures Valid() && failed && history == old(history) && published == old(published)
      ensures issued == old(issued) && durable == old(durable) && compacted == old(compacted) && cohort == old(cohort)
    {
      failed := true;
    }
  }

  /** Lay each overlapping mapping over the base, left to right. */
  method Lay(index: Index, offset: nat, base: seq<int>) returns (bytes: seq<int>)
    requires Disjoint(index.tree) && Backed(index.tree)
    ensures |bytes| == |base|
    ensures forall i | 0 <= i < |base| :: bytes[i] == Through(At(index.tree, offset + i), base[i])
  {
    hide Disjoint, Backed, At, Laid, Through, InOrder, Piece;
    var end := offset + |base|;
    var found := index.Overlapping(offset, end);
    bytes := base;
    LaidNone(index.tree, offset, base);
    var j := 0;
    while j < |found|
      invariant j <= |found| && |bytes| == |base|
      invariant Laid(index.tree, offset, base, bytes, Frontier(found, j, offset))
    {
      var (k, m) := found[j];
      assert found[j] in found;
      EntrySound(index.tree, k);
      var first := if k > offset then k else offset;
      var last := if m.end < end then m.end else end;
      LaidNext(index.tree, offset, base, bytes, found, j, first, last);
      bytes := Overwrite(bytes, first - offset, Piece(m, k, first, last));
      j := j + 1;
    }
    LaidAll(index.tree, offset, base, bytes, found);
  }

  lemma {:induction false} EntrySound(t: Tree, k: nat)
    requires Disjoint(t) && Backed(t) && k in t
    ensures k < t[k].end && (t[k].source.Some? ==> Holds(k, t[k]))
  {
  }

  /** `bytes` with `piece` copied to position `at`. */
  function Overwrite(bytes: seq<int>, at: nat, piece: seq<int>): (r: seq<int>)
    requires at + |piece| <= |bytes|
    ensures |r| == |bytes|
    ensures forall i | 0 <= i < |r| :: r[i] == if at <= i < at + |piece| then piece[i - at] else bytes[i]
  {
    bytes[..at] + piece + bytes[at + |piece|..]
  }

  /** Bytes below this are final after the first `j` mappings. */
  function Frontier(found: seq<(nat, Mapping)>, j: nat, offset: nat): nat
    requires j <= |found|
  {
    if j == 0 then offset else found[j - 1].1.end
  }

  /** The bytes a mapping gives `[first, last)`. */
  function Piece(m: Mapping, k: nat, first: nat, last: nat): (piece: seq<int>)
    requires k <= first <= last <= m.end && (m.source.Some? ==> Holds(k, m))
    ensures |piece| == last - first
  {
    match m.source
    case None => seq(last - first, _ => 0)
    case Some((p, o)) => p.data[o + (first - k)..o + (last - k)]
  }

  ghost predicate Laid(t: Tree, offset: nat, base: seq<int>, bytes: seq<int>, frontier: nat)
    requires |bytes| == |base|
  {
    forall i | 0 <= i < |base| ::
      bytes[i] == if offset + i < frontier then Through(At(t, offset + i), base[i]) else base[i]
  }

  lemma {:induction false} LaidNone(t: Tree, offset: nat, base: seq<int>)
    ensures Laid(t, offset, base, base, offset)
  {
    hide At;
  }

  /** What a search of the index promises of its result. */
  ghost predicate Overlaps(t: Tree, found: seq<(nat, Mapping)>, offset: nat, end: nat) {
    && (forall f :: f in found <==> f.0 in t && f.1 == t[f.0] && f.0 < end && t[f.0].end > offset)
    && InOrder(found)
  }

  /** Between one mapping and the next nothing is mapped. */
  lemma {:induction false} Gap(t: Tree, found: seq<(nat, Mapping)>, j: nat, offset: nat, end: nat, x: nat)
    requires Overlaps(t, found, offset, end) && Disjoint(t) && j <= |found|
    requires offset <= x < end && Frontier(found, j, offset) <= x && (j < |found| ==> x < found[j].0)
    ensures At(t, x).None?
  {
    assert forall i | 0 <= i < |found| :: found[i] in found;
    forall k: nat ensures !Covers(t, k, x) {
      if k in t && t[k].end > offset && k < end {
        var f := (k, t[k]);
        assert f in found;
        var i :| 0 <= i < |found| && found[i] == f;
        SortedBetween(found, j, offset, x, i);
      }
    }
  }

  lemma {:induction false} SortedBetween(found: seq<(nat, Mapping)>, j: nat, offset: nat, x: nat, i: nat)
    requires InOrder(found) && j <= |found| && i < |found| && (forall f | f in found :: f.0 < f.1.end)
    requires Frontier(found, j, offset) <= x && (j < |found| ==> x < found[j].0)
    ensures !(found[i].0 <= x < found[i].1.end)
  {
    if i < j - 1 {
      assert found[j - 1] in found;
    } else if j < i {
      assert found[j] in found;
    }
  }

  lemma {:induction false} PieceSpot(t: Tree, k: nat, first: nat, last: nat, x: nat, base: int)
    requires Disjoint(t) && k in t && k <= first <= x < last <= t[k].end && (t[k].source.Some? ==> Holds(k, t[k]))
    ensures Piece(t[k], k, first, last)[x - first] == Through(At(t, x), base)
  {
    AtIs(t, k, x);
  }

  lemma {:induction false} LaidNext(t: Tree, offset: nat, base: seq<int>, bytes: seq<int>, found: seq<(nat, Mapping)>,
      j: nat, first: nat, last: nat)
    requires Disjoint(t) && |bytes| == |base| && j < |found| && Overlaps(t, found, offset, offset + |base|)
    requires Laid(t, offset, base, bytes, Frontier(found, j, offset))
    requires found[j].0 in t && found[j].1 == t[found[j].0] &&
      (found[j].1.source.Some? ==> Holds(found[j].0, found[j].1))
    requires found[j].0 <= first <= last <= found[j].1.end && offset <= first && last <= offset + |base|
    requires first == if found[j].0 > offset then found[j].0 else offset
    requires last == if found[j].1.end < offset + |base| then found[j].1.end else offset + |base|
    ensures Laid(t, offset, base, Overwrite(bytes, first - offset, Piece(found[j].1, found[j].0, first, last)),
      found[j].1.end)
  {
    hide At, Disjoint, Overlaps, Through, Piece, InOrder;
    var piece := Piece(found[j].1, found[j].0, first, last);
    var after := Overwrite(bytes, first - offset, piece);
    FrontierBelow(t, found, j, offset, offset + |base|);
    forall i | 0 <= i < |base|
      ensures after[i] == if offset + i < found[j].1.end then Through(At(t, offset + i), base[i]) else base[i]
    {
      var x := offset + i;
      if x < first {
        if Frontier(found, j, offset) <= x {
          Gap(t, found, j, offset, offset + |base|, x);
          ThroughNone(base[i]);
        }
      } else if x < last {
        PieceSpot(t, found[j].0, first, last, x, base[i]);
      }
    }
  }

  lemma {:induction false} ThroughNone(base: int)
    ensures Through(None, base) == base
  {
  }

  lemma {:induction false} FrontierBelow(t: Tree, found: seq<(nat, Mapping)>, j: nat, offset: nat, end: nat)
    requires Overlaps(t, found, offset, end) && j < |found|
    ensures Frontier(found, j, offset) <= if found[j].0 > offset then found[j].0 else offset
  {
    if j > 0 { assert found[j - 1].1.end <= found[j].0; }
  }

  lemma {:induction false} LaidAll(t: Tree, offset: nat, base: seq<int>, bytes: seq<int>, found: seq<(nat, Mapping)>)
    requires Disjoint(t) && |bytes| == |base| && Overlaps(t, found, offset, offset + |base|)
    requires Laid(t, offset, base, bytes, Frontier(found, |found|, offset))
    ensures forall i | 0 <= i < |base| :: bytes[i] == Through(At(t, offset + i), base[i])
  {
    hide At, Overlaps, Disjoint;
    forall i | 0 <= i < |base| ensures bytes[i] == Through(At(t, offset + i), base[i]) {
      if Frontier(found, |found|, offset) <= offset + i {
        Gap(t, found, |found|, offset, offset + |base|, offset + i);
      }
    }
  }

  /** The index shows, at each byte, the newest mutation the base does not hold. */
  ghost predicate Overlay(t: Tree, h: seq<Change>, lo: nat, hi: nat) {
    hi <= |h| && forall x: nat :: At(t, x) == Newest(h, lo, hi, x)
  }

  lemma {:induction false} OverlayExtend(t: Tree, h: seq<Change>, more: seq<Change>, lo: nat, hi: nat)
    requires Overlay(t, h, lo, hi)
    ensures Overlay(t, h + more, lo, hi)
  {
    hide At;
    forall x: nat ensures At(t, x) == Newest(h + more, lo, hi, x) {
      NewestExtend(h, more, lo, hi, x);
    }
  }

  lemma {:induction false} ChangeMapping(h: seq<Change>, n: nat, m: Mapping)
    requires 1 <= n <= |h| && h[n - 1].Length() > 0
    requires var c := h[n - 1];
      m == Mapping(c.offset + c.Length(), n, if c.Store? then Some((Payload(n, c.data), 0)) else None)
    ensures h[n - 1].offset < m.end && (m.source.Some? ==> Holds(h[n - 1].offset, m))
  {
  }

  lemma {:induction false} OverlayNext(t: Tree, u: Tree, h: seq<Change>, lo: nat, hi: nat, m: Mapping)
    requires Overlay(t, h, lo, hi) && lo <= hi < |h|
    requires var c := h[hi];
      m == Mapping(c.offset + c.Length(), hi + 1, if c.Store? then Some((Payload(hi + 1, c.data), 0)) else None)
    requires var c := h[hi];
      forall x: nat :: At(u, x) == if c.offset <= x < m.end then Some(SpotOf(c.offset, m, x)) else At(t, x)
    ensures Overlay(u, h, lo, hi + 1)
  {
    hide At;
  }

  lemma {:induction false} OverlayLater(t: Tree, u: Tree, h: seq<Change>, lo: nat, mid: nat, hi: nat)
    requires Overlay(t, h, lo, hi) && lo <= mid && forall x: nat :: At(u, x) == Newer(At(t, x), mid)
    ensures Overlay(u, h, mid, hi)
  {
    hide At, Newest;
    forall x: nat ensures At(u, x) == Newest(h, mid, hi, x) {
      NewestAfter(h, lo, mid, hi, x);
    }
  }
}
