/**
 * The packed log's index: a map from interval starts to mappings that splits and
 * truncates in place, shown to be a per-byte array in which writing a range
 * overwrites just that range.
 */
module IntervalIndex {
  import opened Units

  /** The bytes one mutation stored, pinned by every mapping into them. */
  datatype Payload = Payload(sequence: nat, data: seq<int>)

  /** No source means explicit zeroes; else a payload and the place in it. */
  datatype Mapping = Mapping(end: nat, sequence: nat, source: Option<(Payload, nat)>) {
    function Suffix(skip: nat): Mapping {
      this.(source := match source case None => None case Some((p, o)) => Some((p, o + skip)))
    }
  }

  /** What one byte of the image maps to. */
  datatype Spot = Zeroed(sequence: nat) | Stored(payload: Payload, place: nat, sequence: nat)

  type Tree = map<nat, Mapping>

  predicate Covers(t: Tree, k: nat, x: nat) { k in t && k <= x < t[k].end }

  function SpotOf(k: nat, m: Mapping, x: nat): Spot
    requires k <= x
  {
    match m.source
    case None => Zeroed(m.sequence)
    case Some((p, o)) => Stored(p, o + (x - k), m.sequence)
  }

  /** The array the tree stands for. */
  ghost function At(t: Tree, x: nat): Option<Spot> {
    if k :| Covers(t, k, x) then Some(SpotOf(k, t[k], x)) else None
  }

  /** Intervals are nonempty and do not overlap. */
  ghost predicate Disjoint(t: Tree) {
    && (forall k | k in t :: k < t[k].end)
    && (forall j, k | j in t && k in t && j < k :: t[j].end <= k)
  }

  /** A stored mapping stays within its own mutation's payload. */
  ghost predicate Backed(t: Tree) {
    forall k | k in t && t[k].source.Some? :: Holds(k, t[k])
  }

  predicate Holds(k: nat, m: Mapping)
    requires m.source.Some?
  {
    var (p, o) := m.source.value;
    k <= m.end && p.sequence == m.sequence && o + (m.end - k) <= |p.data|
  }

  lemma {:induction false} Unique(t: Tree, j: nat, k: nat, x: nat)
    requires Disjoint(t) && Covers(t, j, x) && Covers(t, k, x)
    ensures j == k
  {
  }

  lemma {:induction false} AtIs(t: Tree, k: nat, x: nat)
    requires Disjoint(t) && Covers(t, k, x)
    ensures At(t, x) == Some(SpotOf(k, t[k], x))
  {
    var j :| Covers(t, j, x) && At(t, x) == Some(SpotOf(j, t[j], x));
    Unique(t, j, k, x);
  }

  /** The tree `u` maps the bytes outside `[start, end)` as `t` does. */
  ghost predicate SameOutside(t: Tree, u: Tree, start: nat, end: nat) {
    forall x: nat | !(start <= x < end) :: At(u, x) == At(t, x)
  }

  // ----- one entry at a time -------------------------------------------------

  /** `u` covers `x` as `t` does. */
  lemma {:induction false} KeptAt(t: Tree, u: Tree, x: nat)
    requires Disjoint(t) && Disjoint(u)
    requires forall k | Covers(t, k, x) :: Covers(u, k, x) && SpotOf(k, u[k], x) == SpotOf(k, t[k], x)
    requires forall k | Covers(u, k, x) :: Covers(t, k, x)
    ensures At(u, x) == At(t, x)
  {
    if k :| Covers(t, k, x) {
      AtIs(t, k, x);
      AtIs(u, k, x);
    }
  }

  /** Cutting an interval short loses its tail only. */
  lemma {:induction false} Truncate(t: Tree, k: nat, start: nat)
    requires Disjoint(t) && k in t && k < start < t[k].end
    ensures var u := t[k := t[k].(end := start)];
      Disjoint(u) && |u| == |t| && forall x: nat :: At(u, x) == if start <= x < t[k].end then None else At(t, x)
  {
    var u := t[k := t[k].(end := start)];
    assert u.Keys == t.Keys;
    assert Disjoint(u);
    hide Disjoint;
    forall x: nat ensures At(u, x) == if start <= x < t[k].end then None else At(t, x) {
      if start <= x < t[k].end {
        if j :| Covers(u, j, x) {
          Unique(t, j, k, x);
        }
      } else {
        KeptAt(t, u, x);
      }
    }
  }

  /** Removing an interval leaves its bytes unmapped. */
  lemma {:induction false} Remove(t: Tree, k: nat)
    requires Disjoint(t) && k in t
    ensures var u := t - {k};
      Disjoint(u) && |u| == |t| - 1 && forall x: nat :: At(u, x) == if k <= x < t[k].end then None else At(t, x)
  {
    var u := t - {k};
    assert u.Keys == t.Keys - {k};
    assert Disjoint(u);
    hide Disjoint;
    forall x: nat ensures At(u, x) == if k <= x < t[k].end then None else At(t, x) {
      if k <= x < t[k].end {
        if j :| Covers(u, j, x) {
          Unique(t, j, k, x);
        }
      } else {
        KeptAt(t, u, x);
      }
    }
  }

  /** Nothing is mapped from `k` to `end`. */
  ghost predicate Clear(t: Tree, k: nat, end: nat) {
    forall j | j in t :: j != k && (j < k ==> t[j].end <= k) && (k < j ==> end <= j)
  }

  /** Inserting an interval where nothing is mapped maps just its bytes. */
  lemma {:induction false} Insert(t: Tree, k: nat, m: Mapping)
    requires Disjoint(t) && k < m.end && Clear(t, k, m.end)
    ensures var u := t[k := m];
      Disjoint(u) && |u| == |t| + 1 && forall x: nat ::
        At(u, x) == if k <= x < m.end then Some(SpotOf(k, m, x)) else At(t, x)
  {
    var u := t[k := m];
    assert u.Keys == t.Keys + {k};
    assert Disjoint(u);
    hide Disjoint, Clear;
    assert k !in t by { ClearKey(t, k, m.end); }
    forall x: nat ensures At(u, x) == if k <= x < m.end then Some(SpotOf(k, m, x)) else At(t, x) {
      if k <= x < m.end {
        AtIs(u, k, x);
      } else {
        KeptAt(t, u, x);
      }
    }
  }

  lemma {:induction false} ClearKey(t: Tree, k: nat, end: nat)
    requires Clear(t, k, end)
    ensures k !in t
  {
  }

  lemma {:induction false} SuffixSpot(k: nat, m: Mapping, e: nat, x: nat)
    requires k <= e <= x
    ensures SpotOf(e, m.Suffix(e - k), x) == SpotOf(k, m, x)
  {
  }

  // ----- the source's tree operations ----------------------------------------

  /** The greatest key below `bound`, as the library's ordered map finds it. */
  lemma {:induction false} GreatestBelow(keys: set<nat>, bound: nat) returns (k: nat)
    requires exists j :: j in keys && j < bound
    ensures k in keys && k < bound && forall j | j in keys && j < bound :: j <= k
    decreases bound
  {
    if bound - 1 in keys {
      k := bound - 1;
    } else {
      var j :| j in keys && j < bound;
      assert j < bound - 1;
      k := GreatestBelow(keys, bound - 1);
    }
  }

  lemma {:induction false} LeastFrom(keys: set<nat>, bound: nat, top: nat) returns (k: nat)
    requires exists j :: j in keys && bound <= j < top
    ensures k in keys && bound <= k < top && forall j | j in keys && bound <= j < top :: k <= j
    decreases top - bound
  {
    if bound in keys {
      k := bound;
    } else {
      var j :| j in keys && bound <= j < top;
      k := LeastFrom(keys, bound + 1, top);
    }
  }

  /** Keys in the range being replaced. */
  ghost function Inside(t: Tree, start: nat, end: nat): set<nat> {
    set k | k in t && start <= k < end
  }

  /** Before the removals: nothing below `start` reaches past it. */
  ghost predicate Trimmed(t: Tree, start: nat) {
    forall k | k in t && k < start :: t[k].end <= start
  }

  /** The part of an interval past `end`, put back as an entry of its own. */
  lemma {:induction false} TailBack(t: Tree, v: Tree, k: nat, start: nat, end: nat)
    requires Disjoint(t) && Disjoint(v) && k in t && k < end < t[k].end && start <= end
    requires forall j | j in v && j != k :: j in t && v[j] == t[j]
    requires k in v ==> v[k].end <= end
    requires forall x: nat | !(start <= x < t[k].end) :: At(v, x) == At(t, x)
    ensures Clear(v, end, t[k].end)
    ensures var u := v[end := t[k].Suffix(end - k)]; Disjoint(u) && |u| == |v| + 1 && SameOutside(t, u, start, end)
  {
    var m := t[k].Suffix(end - k);
    forall j | j in v ensures j != end && (j < end ==> v[j].end <= end) && (end < j ==> t[k].end <= j) {
      if j != k {
        assert j < k ==> t[j].end <= k;
        assert k < j ==> t[k].end <= j;
      }
    }
    Insert(v, end, m);
    var u := v[end := m];
    forall x: nat | !(start <= x < end) ensures At(u, x) == At(t, x) {
      if end <= x < t[k].end {
        SuffixSpot(k, t[k], end, x);
        AtIs(t, k, x);
      }
    }
  }

  lemma {:induction false} TrimSplit(t: Tree, k: nat, start: nat, end: nat)
    requires Disjoint(t) && k in t && k < start < end < t[k].end
    ensures var u := t[end := t[k].Suffix(end - k)][k := t[k].(end := start)];
      Disjoint(u) && |u| == |t| + 1 && SameOutside(t, u, start, end)
  {
    var v := t[k := t[k].(end := start)];
    hide Disjoint, SameOutside, Covers;
    Truncate(t, k, start);
    TailBack(t, v, k, start, end);
    assert t[end := t[k].Suffix(end - k)][k := t[k].(end := start)] == v[end := t[k].Suffix(end - k)];
  }

  /** What trimming the predecessor `k` does. */
  function TrimmedTree(t: Tree, k: nat, start: nat, end: nat): Tree
    requires k in t && k <= end
  {
    if t[k].end <= start then t
    else (if t[k].end > end then t[end := t[k].Suffix(end - k)] else t)[k := t[k].(end := start)]
  }

  lemma {:induction false} TrimIs(t: Tree, k: nat, start: nat, end: nat)
    requires Disjoint(t) && k in t && k < start < end && (forall j | j in t && j < start :: j <= k)
    ensures var u := TrimmedTree(t, k, start, end);
      Disjoint(u) && Trimmed(u, start) && |u| <= |t| + 1 && SameOutside(t, u, start, end) && (Backed(t) ==> Backed(u))
  {
    var u := TrimmedTree(t, k, start, end);
    forall j | j in u && j < start ensures u[j].end <= start {
      assert j < k ==> t[j].end <= k;
    }
    hide Disjoint, Trimmed;
    if t[k].end > end {
      TrimSplit(t, k, start, end);
    } else if t[k].end > start {
      hide Covers;
      Truncate(t, k, start);
    }
  }

  /** No entry that starts before `bound` starts after `k`. */
  predicate Last(t: Tree, k: nat, bound: nat) {
    k < bound && forall j | j in t && j < bound :: j <= k
  }

  lemma {:induction false} LastIs(t: Tree, k: nat, bound: nat)
    ensures Last(t, k, bound) <==> k < bound && forall j | j in t && j < bound :: j <= k
  {
  }

  lemma {:induction false} NothingBelow(t: Tree, start: nat)
    requires forall k | k in t :: start <= k
    ensures Trimmed(t, start)
  {
  }

  /** One removal, keeping what lies past `end`. */
  function Cleaned(t: Tree, k: nat, end: nat): Tree
    requires k in t
  {
    var u := t - {k};
    if t[k].end > end && k < end then u[end := t[k].Suffix(end - k)] else u
  }

  lemma {:induction false} CleanStep(t: Tree, k: nat, start: nat, end: nat)
    requires Disjoint(t) && Trimmed(t, start) && k in t && start <= k < end
    ensures var u := Cleaned(t, k, end);
      && Disjoint(u) && Trimmed(u, start) && |u| <= |t| && SameOutside(t, u, start, end) && (Backed(t) ==> Backed(u))
      && Inside(u, start, end) < Inside(t, start, end)
  {
    var u := Cleaned(t, k, end);
    assert k in Inside(t, start, end) && k !in Inside(u, start, end);
    hide Disjoint;
    Remove(t, k);
    if t[k].end > end {
      hide Covers, Clear;
      TailBack(t, t - {k}, k, start, end);
    }
  }

  lemma {:induction false} CleanedIs(t: Tree, k: nat, end: nat)
    requires k in t && k < end
    ensures Cleaned(t, k, end) == if t[k].end > end then (t - {k})[end := t[k].Suffix(end - k)] else t - {k}
  {
  }

  lemma {:induction false} CleanIsClear(t: Tree, start: nat, end: nat)
    requires Trimmed(t, start) && Inside(t, start, end) == {} && start < end
    ensures Clear(t, start, end)
  {
    forall j | j in t ensures j != start && (j < start ==> t[j].end <= start) && (start < j ==> end <= j) {
      assert j !in Inside(t, start, end);
    }
  }

  class Index {
    var tree: Tree
    const limit: nat

    constructor (limit: nat)
      ensures tree == map[] && this.limit == limit
    {
      tree, this.limit := map[], limit;
    }

    /** Map `[start, mapping.end)` to `mapping`, and every other byte as before. */
    method Replace(start: nat, mapping: Mapping)
      requires Disjoint(tree) && start < mapping.end && |tree| + 2 <= limit
      modifies this
      ensures Disjoint(tree) && |tree| <= |old(tree)| + 2 && start in tree && tree[start] == mapping
      ensures forall x: nat ::
        At(tree, x) == if start <= x < mapping.end then Some(SpotOf(start, mapping, x)) else At(old(tree), x)
      ensures Backed(old(tree)) && (mapping.source.Some? ==> Holds(start, mapping)) ==> Backed(tree)
    {
      hide Disjoint, Covers, Inside, Clear, Trimmed, SpotOf;
      var end := mapping.end;
      Trim(start, end);
      Clean(start, end);
      Insert(tree, start, mapping);
      tree := tree[start := mapping];
    }

    /** The predecessor may straddle either boundary, or both. */
    method Trim(start: nat, end: nat)
      requires Disjoint(tree) && start < end
      modifies this
      ensures Disjoint(tree) && Trimmed(tree, start) && |tree| <= |old(tree)| + 1
      ensures SameOutside(old(tree), tree, start, end) && (Backed(old(tree)) ==> Backed(tree))
    {
      hide Disjoint, Backed, SameOutside, Trimmed;
      var last := LastBelow(start);
      if last.Some? {
        var k := last.value;
        TrimIs(tree, k, start, end);
        var straddler := tree[k];
        if straddler.end > start {
          if straddler.end > end {
            tree := tree[end := straddler.Suffix(end - k)];
          }
          tree := tree[k := straddler.(end := start)];
        }
      } else {
        NothingBelow(tree, start);
        Unchanged(tree, start, end);
      }
    }

    /** Remove in place whatever starts inside the range. */
    method Clean(start: nat, end: nat)
      requires Disjoint(tree) && Trimmed(tree, start) && start < end
      modifies this
      ensures Disjoint(tree) && Clear(tree, start, end) && |tree| <= |old(tree)|
      ensures SameOutside(old(tree), tree, start, end) && (Backed(old(tree)) ==> Backed(tree))
    {
      hide *;
      Unchanged(tree, start, end);
      var k := FirstInside(start, end);
      while k.Some?
        invariant Disjoint(tree) && Trimmed(tree, start) && |tree| <= |old(tree)|
        invariant SameOutside(old(tree), tree, start, end) && (Backed(old(tree)) ==> Backed(tree))
        invariant k.Some? ==> k.value in tree && start <= k.value < end
        invariant k.None? ==> Inside(tree, start, end) == {}
        decreases Inside(tree, start, end), k.Some?
      {
        CleanStep(tree, k.value, start, end);
        OutsideTwice(old(tree), tree, Cleaned(tree, k.value, end), start, end);
        CleanedIs(tree, k.value, end);
        var removed := tree[k.value];
        tree := tree - {k.value};
        if removed.end > end {
          tree := tree[end := removed.Suffix(end - k.value)];
        }
        k := FirstInside(start, end);
      }
      CleanIsClear(tree, start, end);
    }

    /** The last entry that starts before `bound`, if any. */
    method LastBelow(bound: nat) returns (k: Option<nat>)
      ensures k.Some? ==> k.value in tree && k.value < bound && forall j | j in tree && j < bound :: j <= k.value
      ensures k.None? ==> forall j | j in tree :: bound <= j
    {
      if exists j: nat :: j in tree && j < bound {
        ghost var greatest := GreatestBelow(tree.Keys, bound);
        assert greatest in tree && Last(tree, greatest, bound);
        var j: nat :| j in tree && Last(tree, j, bound);
        LastIs(tree, j, bound);
        return Some(j);
      }
      k := None;
    }

    /** The first entry that starts inside the range, if any. */
    method FirstInside(start: nat, end: nat) returns (k: Option<nat>)
      ensures k.Some? ==> k.value in tree && start <= k.value < end
      ensures k.Some? ==> forall j | j in Inside(tree, start, end) :: k.value <= j
      ensures k.None? ==> Inside(tree, start, end) == {}
    {
      if exists j: nat :: j in tree && start <= j < end {
        ghost var least := LeastFrom(tree.Keys, start, end);
        var j: nat :| j in tree && start <= j < end && !(exists i :: i in tree && start <= i < j);
        return Some(j);
      }
      k := None;
    }

    /** Drop what compaction has folded into the base. */
    method RetainAfter(durable: nat)
      requires Disjoint(tree)
      modifies this
      ensures Disjoint(tree) && |tree| <= |old(tree)| && (Backed(old(tree)) ==> Backed(tree))
      ensures forall x: nat :: At(tree, x) == Newer(At(old(tree), x), durable)
    {
      hide Disjoint;
      Retained(tree, durable);
      tree := map k | k in tree && tree[k].sequence > durable :: tree[k];
    }

    /** The mappings that reach into `[start, end)`, in order. */
    method Overlapping(start: nat, end: nat) returns (found: seq<(nat, Mapping)>)
      requires Disjoint(tree) && start <= end
      ensures forall f :: f in found <==> f.0 in tree && f.1 == tree[f.0] && f.0 < end && tree[f.0].end > start
      ensures InOrder(found)
    {
      hide Disjoint, Listed;
      var begin := Begin(start);
      found := [];
      var next := begin;
      ListedNone(tree, begin, start);
      while exists k: nat :: k in tree && next <= k < end
        invariant begin <= next && found == Listed(tree, begin, next, start)
        invariant next <= end || next == begin
        decreases end - next
      {
        ghost var least := LeastFrom(tree.Keys, next, end);
        var k: nat :| k in tree && next <= k < end && !(exists j :: j in tree && next <= j < k);
        ListedNext(tree, begin, next, k, start);
        if tree[k].end > start {
          found := found + [(k, tree[k])];
        }
        next := k + 1;
      }
      ListedAll(tree, begin, next, start, end);
      ListedOrder(tree, begin, next, start);
    }

    /** The interval at or below `start`, where a search begins. */
    method Begin(start: nat) returns (begin: nat)
      requires Disjoint(tree)
      ensures begin <= start && forall j | j in tree && j < begin :: tree[j].end <= start
    {
      hide Disjoint;
      var last := LastBelow(start + 1);
      if last.Some? {
        begin := last.value;
        EarlierEnds(tree, begin, start);
      } else {
        begin := start;
      }
    }
  }

  /** Entries starting in `[lo, hi)` that reach past `start`, ascending. */
  function Listed(t: Tree, lo: nat, hi: nat, start: nat): seq<(nat, Mapping)>
    decreases hi
  {
    if hi <= lo then []
    else Listed(t, lo, hi - 1, start) + if hi - 1 in t && t[hi - 1].end > start then [(hi - 1, t[hi - 1])] else []
  }

  lemma {:induction false} ListedMember(t: Tree, lo: nat, hi: nat, start: nat, f: (nat, Mapping))
    ensures f in Listed(t, lo, hi, start) <==> f.0 in t && f.1 == t[f.0] && lo <= f.0 < hi && t[f.0].end > start
    decreases hi
  {
    if hi > lo {
      ListedMember(t, lo, hi - 1, start, f);
    }
  }

  lemma {:induction false} ListedSkip(t: Tree, lo: nat, mid: nat, hi: nat, start: nat)
    requires lo <= mid <= hi && forall k | k in t :: !(mid <= k < hi)
    ensures Listed(t, lo, hi, start) == Listed(t, lo, mid, start)
    decreases hi
  {
    if mid < hi {
      ListedSkip(t, lo, mid, hi - 1, start);
    }
  }

  lemma {:induction false} ListedNone(t: Tree, lo: nat, start: nat)
    ensures Listed(t, lo, lo, start) == []
  {
  }

  lemma {:induction false} ListedNext(t: Tree, lo: nat, next: nat, k: nat, start: nat)
    requires lo <= next <= k && k in t && !(exists j :: j in t && next <= j < k)
    ensures Listed(t, lo, k + 1, start) == Listed(t, lo, next, start) + if t[k].end > start then [(k, t[k])] else []
  {
    ListedSkip(t, lo, next, k, start);
  }

  lemma {:induction false} ListedAll(t: Tree, lo: nat, next: nat, start: nat, end: nat)
    requires lo <= next && (next <= end || next == lo) && lo <= start <= end &&
      !(exists k: nat :: k in t && next <= k < end)
    requires forall j | j in t && j < lo :: t[j].end <= start
    ensures forall f :: f in Listed(t, lo, next, start) <==>
      f.0 in t && f.1 == t[f.0] && f.0 < end && t[f.0].end > start
  {
    ListedSkip(t, lo, next, end, start);
    forall f ensures f in Listed(t, lo, next, start) <==> f.0 in t && f.1 == t[f.0] && f.0 < end && t[f.0].end > start {
      ListedMember(t, lo, end, start, f);
    }
  }

  lemma {:induction false} ListedOrder(t: Tree, lo: nat, hi: nat, start: nat)
    requires Disjoint(t)
    ensures InOrder(Listed(t, lo, hi, start))
    decreases hi
  {
    if hi > lo {
      var h: nat := hi - 1;
      var before := Listed(t, lo, h, start);
      ListedOrder(t, lo, h, start);
      if h in t && t[h].end > start {
        forall f | f in before ensures f.0 < f.1.end <= h {
          ListedMember(t, lo, h, start, f);
        }
        OrderMore(before, (h, t[h]));
      }
    }
  }

  ghost predicate InOrder(s: seq<(nat, Mapping)>) {
    forall i, j | 0 <= i < j < |s| :: s[i].0 < s[i].1.end <= s[j].0
  }

  lemma {:induction false} OrderMore(s: seq<(nat, Mapping)>, f: (nat, Mapping))
    requires InOrder(s) && forall g | g in s :: g.0 < g.1.end <= f.0
    ensures InOrder(s + [f])
  {
    var u := s + [f];
    forall i, j | 0 <= i < j < |u| ensures u[i].0 < u[i].1.end <= u[j].0 {
      assert u[i] == s[i] && s[i] in s;
      if j < |s| { assert u[j] == s[j]; }
    }
  }

  lemma {:induction false} EarlierEnds(t: Tree, k: nat, start: nat)
    requires Disjoint(t) && k in t && k <= start
    ensures forall j | j in t && j < k :: t[j].end <= start
  {
  }

  /** A spot survives compaction up to `durable` if it is newer. */
  function Newer(spot: Option<Spot>, durable: nat): Option<Spot> {
    if spot.Some? && spot.value.sequence > durable then spot else None
  }

  lemma {:induction false} Smaller(a: set<nat>, b: set<nat>)
    requires a <= b
    ensures |a| <= |b|
  {
    assert b == a + (b - a);
  }

  lemma {:induction false} Retained(t: Tree, durable: nat)
    requires Disjoint(t)
    ensures var u := map k | k in t && t[k].sequence > durable :: t[k];
      Disjoint(u) && |u| <= |t| && (Backed(t) ==> Backed(u)) && forall x: nat :: At(u, x) == Newer(At(t, x), durable)
  {
    var u := map k | k in t && t[k].sequence > durable :: t[k];
    assert u.Keys <= t.Keys;
    Smaller(u.Keys, t.Keys);
    assert |u| == |u.Keys| && |t| == |t.Keys|;
    forall x: nat ensures At(u, x) == Newer(At(t, x), durable) {
      if k :| Covers(t, k, x) {
        AtIs(t, k, x);
        if t[k].sequence > durable {
          assert Covers(u, k, x);
          AtIs(u, k, x);
        } else if j :| Covers(u, j, x) {
          Unique(t, j, k, x);
        }
      } else if j :| Covers(u, j, x) {
        assert Covers(t, j, x);
      }
    }
  }

  predicate Within(start: nat, end: nat, x: nat) { start <= x < end }

  /**
   * With a nonempty range, reaching into it is the same as sharing a byte; an
   * empty one is reached by a mapping that straddles it, which shares none.
   */
  lemma {:induction false} OverlapShares(k: nat, m: Mapping, start: nat, end: nat)
    requires k < m.end && start <= end
    ensures (exists x: nat :: Within(k, m.end, x) && Within(start, end, x)) <==> k < end && m.end > start && start < end
  {
    if k < end && m.end > start && start < end {
      var x := if k < start then start else k;
      assert Within(k, m.end, x) && Within(start, end, x);
    }
  }

  /** Zeroes over two bytes, and an empty range between them: their mapping is returned. */
  method EmptyRangeFinds() returns (found: seq<(nat, Mapping)>)
    ensures (0, Mapping(2, 1, None)) in found
    ensures !exists x: nat :: Within(0, 2, x) && Within(1, 1, x)
  {
    hide Disjoint, Covers, At, SpotOf, Backed;
    var index := new Index(2);
    NoneDisjoint();
    index.Replace(0, Mapping(2, 1, None));
    found := index.Overlapping(1, 1);
    OverlapShares(0, Mapping(2, 1, None), 1, 1);
  }

  lemma {:induction false} NoneDisjoint()
    ensures Disjoint(map[])
  {
  }

  lemma {:induction false} Unchanged(t: Tree, start: nat, end: nat)
    ensures SameOutside(t, t, start, end)
  {
  }

  lemma {:induction false} OutsideTwice(t: Tree, u: Tree, v: Tree, start: nat, end: nat)
    requires SameOutside(t, u, start, end) && SameOutside(u, v, start, end)
    ensures SameOutside(t, v, start, end)
  {
  }
}
