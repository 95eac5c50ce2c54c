/**
 * The streaming content census: one pass over the images, a map from content to
 * the first and last image that held it, and counters that must come out as the
 * unions and intersections of the images' contents.
 */
module Census {
  import opened Units

  /** A chunk's bytes. Equal hashes are taken to mean equal chunks. */
  type Content = seq<int>

  predicate IsZero(c: Content) { forall i | 0 <= i < |c| :: c[i] == 0 }

  /** The different nonzero contents of a run of chunks. */
  function Distinct(chunks: seq<Content>): set<Content> {
    set c | c in chunks && !IsZero(c)
  }

  /** A chunk counts as content exactly when it has a nonzero byte. */
  lemma {:induction false} DistinctIs(chunks: seq<Content>, c: Content)
    ensures c in Distinct(chunks) <==> c in chunks && exists i | 0 <= i < |c| :: c[i] != 0
  {
  }

  /** Bytes in a set of contents. */
  ghost function Weight(s: set<Content>): nat {
    if c :| c in s then |c| + Weight(s - {c}) else 0
  }

  lemma {:induction false} WeightTake(s: set<Content>, c: Content)
    requires c in s
    ensures Weight(s) == |c| + Weight(s - {c})
    decreases |s|
  {
    var d :| d in s && Weight(s) == |d| + Weight(s - {d});
    if d != c {
      WeightTake(s - {d}, c);
      WeightTake(s - {c}, d);
      assert s - {d} - {c} == s - {c} - {d};
    }
  }

  lemma {:induction false} WeightAdd(s: set<Content>, c: Content)
    ensures Weight(s + {c}) == Weight(s) + if c in s then 0 else |c|
  {
    if c in s {
      assert s + {c} == s;
    } else {
      WeightTake(s + {c}, c);
      assert s + {c} - {c} == s;
    }
  }

  lemma {:induction false} WeightSplit(s: set<Content>, b: set<Content>)
    ensures Weight(s) == Weight(s * b) + Weight(s - b)
    decreases |s|
  {
    if c :| c in s {
      var r := s - {c};
      WeightSplit(r, b);
      WeightTake(s, c);
      if c in b {
        WeightTake(s * b, c);
        assert s * b - {c} == r * b && s - b == r - b;
      } else {
        WeightTake(s - b, c);
        assert s - b - {c} == r - b && s * b == r * b;
      }
    } else {
      assert s == {} && s * b == {} && s - b == {};
    }
  }

  /** A union weighs no more than its parts. */
  lemma {:induction false} WeightUnion(s: set<Content>, t: set<Content>)
    ensures Weight(s + t) <= Weight(s) + Weight(t)
  {
    WeightSplit(s + t, s);
    assert (s + t) * s == s;
    WeightSplit(t, s);
    assert (s + t) - s == t - s;
  }

  lemma {:induction false} DistinctMore(chunks: seq<Content>, n: nat)
    requires n < |chunks|
    ensures Distinct(chunks[..n + 1]) == Distinct(chunks[..n]) + if IsZero(chunks[n]) then {} else {chunks[n]}
  {
    assert chunks[..n + 1] == chunks[..n] + [chunks[n]];
  }

  // ----- the counters by their definition ------------------------------------

  /** Content of images `lo` to `hi - 1`. */
  function Union(images: seq<seq<Content>>, lo: nat, hi: nat): set<Content>
    requires hi <= |images|
    decreases hi
  {
    if hi <= lo then {} else Union(images, lo, hi - 1) + Distinct(images[hi - 1])
  }

  /** Sum over descendants `1` to `n - 1` of their content in `b`, or outside it. */
  ghost function SumIn(images: seq<seq<Content>>, n: nat, b: set<Content>): nat
    requires n <= |images|
  {
    if n <= 1 then 0 else SumIn(images, n - 1, b) + Weight(Distinct(images[n - 1]) * b)
  }

  ghost function SumOut(images: seq<seq<Content>>, n: nat, b: set<Content>): nat
    requires n <= |images|
  {
    if n <= 1 then 0 else SumOut(images, n - 1, b) + Weight(Distinct(images[n - 1]) - b)
  }

  /** Sum over descendants `1` to `n - 1` of all their content. */
  ghost function SumWhole(images: seq<seq<Content>>, n: nat): nat
    requires n <= |images|
  {
    if n <= 1 then 0 else SumWhole(images, n - 1) + Weight(Distinct(images[n - 1]))
  }

  lemma {:induction false} SumsSplit(images: seq<seq<Content>>, n: nat, b: set<Content>)
    requires n <= |images|
    ensures SumWhole(images, n) == SumIn(images, n, b) + SumOut(images, n, b)
    decreases n
  {
    if n > 1 {
      SumsSplit(images, n - 1, b);
      WeightSplit(Distinct(images[n - 1]), b);
    }
  }

  datatype Category = InPlace | Elsewhere | Prior | Within | New

  /** Where a nonzero chunk's content was met before. */
  function CategoryOf(images: seq<seq<Content>>, i: nat, o: nat): Category
    requires i < |images| && o < |images[i]|
  {
    var c := images[i][o];
    if i > 0 && c in Distinct(images[0]) then
      if o < |images[0]| && images[0][o] == c then InPlace else Elsewhere
    else if c in Union(images, 1, i) then Prior
    else if c in Distinct(images[i][..o]) then Within
    else New
  }

  /** The chunk occurs in image `k`. */
  predicate Occurs(images: seq<seq<Content>>, k: nat, c: Content)
    requires k < |images|
  {
    exists x | 0 <= x < |images[k]| :: images[k][x] == c
  }

  lemma {:induction false} UnionOccurs(images: seq<seq<Content>>, hi: nat, c: Content)
    requires hi <= |images| && !IsZero(c)
    ensures c in Union(images, 1, hi) <==> exists k | 1 <= k < hi :: Occurs(images, k, c)
    decreases hi
  {
    hide IsZero;
    if hi > 1 {
      UnionOccurs(images, hi - 1, c);
      assert c in Distinct(images[hi - 1]) <==> Occurs(images, hi - 1, c);
    }
  }

  /** The five categories, by where else the chunk occurs. */
  lemma {:induction false} CategoryExactly(images: seq<seq<Content>>, i: nat, o: nat)
    requires i < |images| && o < |images[i]| && !IsZero(images[i][o])
    ensures var c := images[i][o]; var k := CategoryOf(images, i, o);
      var inBase := i > 0 && Occurs(images, 0, c);
      var before := exists j | 1 <= j < i :: Occurs(images, j, c);
      var again := exists x | 0 <= x < o :: images[i][x] == c;
      && (k == InPlace <==> inBase && o < |images[0]| && images[0][o] == c)
      && (k == Elsewhere <==> inBase && !(o < |images[0]| && images[0][o] == c))
      && (k == Prior <==> !inBase && before)
      && (k == Within <==> !inBase && !before && again)
      && (k == New <==> !inBase && !before && !again)
  {
    var c := images[i][o];
    UnionOccurs(images, i, c);
    hide IsZero, Union;
    assert c in Distinct(images[i][..o]) <==> exists x | 0 <= x < o :: images[i][x] == c by {
      if x :| 0 <= x < o && images[i][x] == c { assert images[i][..o][x] == c; }
    }
  }

  /** Bytes of one category among the first `o` chunks of image `i`. */
  function BytesOf(images: seq<seq<Content>>, i: nat, o: nat, k: Category): nat
    requires i < |images| && o <= |images[i]|
  {
    if o == 0 then 0
    else BytesOf(images, i, o - 1, k) +
         if !IsZero(images[i][o - 1]) && CategoryOf(images, i, o - 1) == k then |images[i][o - 1]| else 0
  }

  function LogicalBytes(chunks: seq<Content>, o: nat): nat
    requires o <= |chunks|
  {
    if o == 0 then 0 else LogicalBytes(chunks, o - 1) + |chunks[o - 1]|
  }

  function NonzeroBytes(chunks: seq<Content>, o: nat): nat
    requires o <= |chunks|
  {
    if o == 0 then 0 else NonzeroBytes(chunks, o - 1) + if IsZero(chunks[o - 1]) then 0 else |chunks[o - 1]|
  }

  /** The five categories share out an image's nonzero bytes. */
  lemma {:induction false} Partition(images: seq<seq<Content>>, i: nat, o: nat)
    requires i < |images| && o <= |images[i]|
    ensures NonzeroBytes(images[i], o) ==
      BytesOf(images, i, o, InPlace) + BytesOf(images, i, o, Elsewhere) + BytesOf(images, i, o, Prior) +
      BytesOf(images, i, o, Within) + BytesOf(images, i, o, New)
    decreases o
  {
    hide CategoryOf, IsZero;
    if o > 0 {
      Partition(images, i, o - 1);
    }
  }

  // ----- the pass ------------------------------------------------------------

  datatype Image = Image(logical: nat, zero: nat, nonzero: nat, unique: nat, inPlace: nat, elsewhere: nat,
                         prior: nat, within: nat, newUnique: nat)

  datatype Descendants = Descendants(independent: nat, fleet: nat, basePresent: nat, baseDuplicate: nat,
    novelDuplicate: nat)

  /** The variables of the pass; `seen` gives each content its first and last image. */
  datatype Tally = Tally(seen: map<Content, (nat, nat)>, base: seq<Option<Content>>, local: set<Content>,
                         image: Image, fleet: nat, d: Descendants)

  const NO_IMAGE := Image(0, 0, 0, 0, 0, 0, 0, 0, 0)

  /** One chunk. */
  function Visit(t: Tally, index: nat, offset: nat, c: Content): Tally {
    var n := |c|;
    var hash := if IsZero(c) then None else Some(c);
    var base := if index == 0 then t.base + [hash] else t.base;
    var image := t.image.(logical := t.image.logical + n);
    if hash.None? then t.(base := base, image := image.(zero := image.zero + n))
    else
      var isNew := c !in t.local;
      var counted := image.(nonzero := image.nonzero + n, unique := image.unique + if isNew then n else 0);
      var u := t.(base := base, local := t.local + {c}, image := counted);
      if c in t.seen && t.seen[c].0 == 0 && index > 0 then
        u.(d := if t.seen[c].1 == 0 then t.d.(fleet := t.d.fleet + n, basePresent := t.d.basePresent + n)
                else if isNew then t.d.(baseDuplicate := t.d.baseDuplicate + n) else t.d,
           seen := t.seen[c := (0, index)],
           image := if offset < |base| && base[offset] == hash then counted.(inPlace := counted.inPlace + n)
                    else counted.(elsewhere := counted.elsewhere + n))
      else if c in t.seen && t.seen[c].0 < index then
        u.(d := if isNew then t.d.(novelDuplicate := t.d.novelDuplicate + n) else t.d,
           seen := t.seen[c := (t.seen[c].0, index)],
           image := counted.(prior := counted.prior + n))
      else if c in t.seen then u.(image := counted.(within := counted.within + n))
      else
        u.(seen := t.seen[c := (index, index)], image := counted.(newUnique := counted.newUnique + n),
          fleet := t.fleet + n,
           d := if index > 0 then t.d.(fleet := t.d.fleet + n) else t.d)
  }

  // ----- what the pass has counted, `o` chunks into image `i` ----------------

  function BaseSet(images: seq<seq<Content>>, i: nat, o: nat): set<Content>
    requires i < |images| && o <= |images[i]|
  {
    if i == 0 then Distinct(images[0][..o]) else Distinct(images[0])
  }

  function Local(images: seq<seq<Content>>, i: nat, o: nat): set<Content>
    requires i < |images| && o <= |images[i]|
  {
    if i == 0 then {} else Distinct(images[i][..o])
  }

  /** Contents of descendants so far. */
  function Below(images: seq<seq<Content>>, i: nat, o: nat): set<Content>
    requires i < |images| && o <= |images[i]|
  {
    Union(images, 1, i) + Local(images, i, o)
  }

  ghost predicate SeenInv(t: Tally, b: set<Content>, before: set<Content>, d: set<Content>, i: nat) {
    && t.seen.Keys == b + d && before <= d
    && (forall c | c in t.seen ::
          && t.seen[c].0 <= i
          && (c in b <==> t.seen[c].0 == 0)
          && (c in b ==> (t.seen[c].1 == 0 <==> c !in d))
          && (c !in b ==> (t.seen[c].0 < i <==> c in before)))
  }

  ghost predicate BaseInv(t: Tally, chunks: seq<Content>) {
    && |t.base| == |chunks|
    && (forall k | 0 <= k < |chunks| :: t.base[k] == if IsZero(chunks[k]) then None else Some(chunks[k]))
  }

  ghost predicate WeightInv(t: Tally, b: set<Content>, d: set<Content>, l: set<Content>, sumIn: nat, sumOut: nat) {
    && t.fleet == Weight(b + d)
    && t.d.fleet == Weight(d)
    && t.d.basePresent == Weight(d * b)
    && t.d.baseDuplicate + Weight(d * b) == sumIn + Weight(l * b)
    && t.d.novelDuplicate + Weight(d - b) == sumOut + Weight(l - b)
  }

  ghost predicate ImageInv(t: Tally, images: seq<seq<Content>>, i: nat, o: nat)
    requires i < |images| && o <= |images[i]|
  {
    && t.local == Distinct(images[i][..o])
    && t.image.unique == Weight(t.local)
    && t.image.nonzero == NonzeroBytes(images[i], o)
    && t.image.logical == LogicalBytes(images[i], o) == t.image.zero + t.image.nonzero
    && t.image.inPlace == BytesOf(images, i, o, InPlace)
    && t.image.elsewhere == BytesOf(images, i, o, Elsewhere)
    && t.image.prior == BytesOf(images, i, o, Prior)
    && t.image.within == BytesOf(images, i, o, Within)
    && t.image.newUnique == BytesOf(images, i, o, New)
  }

  ghost predicate TallyInv(t: Tally, images: seq<seq<Content>>, i: nat, o: nat)
    requires i < |images| && o <= |images[i]|
  {
    var b := BaseSet(images, i, o);
    && SeenInv(t, b, Union(images, 1, i), Below(images, i, o), i)
    && BaseInv(t, if i == 0 then images[0][..o] else images[0])
    && WeightInv(t, b, Below(images, i, o), Local(images, i, o), SumIn(images, i, b), SumOut(images, i, b))
    && ImageInv(t, images, i, o)
    && t.d.independent == SumWhole(images, i)
  }

  /** The sets as one more nonzero chunk of a descendant is met. */
  lemma {:induction false} VisitSeen(t: Tally, b: set<Content>, before: set<Content>, d: set<Content>, i: nat, o: nat,
      c: Content)
    requires SeenInv(t, b, before, d, i) && !IsZero(c) && i > 0
    ensures SeenInv(Visit(t, i, o, c), b, before, d + {c}, i)
  {
    var u := Visit(t, i, o, c);
    assert u.seen.Keys == b + (d + {c});
  }

  lemma {:induction false} VisitSeenBase(t: Tally, b: set<Content>, i: nat, o: nat, c: Content)
    requires SeenInv(t, b, {}, {}, 0) && !IsZero(c) && i == 0
    ensures SeenInv(Visit(t, i, o, c), b + {c}, {}, {}, 0)
  {
    var u := Visit(t, i, o, c);
    assert u.seen.Keys == b + {c} + {};
  }

  lemma {:induction false} WeightAddIn(s: set<Content>, b: set<Content>, c: Content)
    ensures Weight((s + {c}) * b) == Weight(s * b) + if c in b && c !in s then |c| else 0
    ensures Weight((s + {c}) - b) == Weight(s - b) + if c !in b && c !in s then |c| else 0
    ensures Weight(b + (s + {c})) == Weight(b + s) + if c in b || c in s then 0 else |c|
  {
    WeightAdd(s * b, c);
    WeightAdd(s - b, c);
    WeightAdd(b + s, c);
    assert (s + {c}) * b == if c in b then s * b + {c} else s * b;
    assert (s + {c}) - b == if c in b then s - b else (s - b) + {c};
    assert b + (s + {c}) == (b + s) + {c};
  }

  /** Each branch adds to just the counters whose sets it extends. */
  lemma {:induction false} VisitWeights(t: Tally, b: set<Content>, before: set<Content>, l: set<Content>, sumIn: nat,
      sumOut: nat,
                                        i: nat, o: nat, c: Content)
    requires SeenInv(t, b, before, before + l, i) && WeightInv(t, b, before + l, l, sumIn, sumOut)
    requires t.local == l && !IsZero(c) && i > 0
    ensures WeightInv(Visit(t, i, o, c), b, before + (l + {c}), l + {c}, sumIn, sumOut)
  {
    var d := before + l;
    assert before + (l + {c}) == d + {c};
    WeightAdd(d, c);
    WeightAddIn(d, b, c);
    WeightAddIn(l, b, c);
    assert c in t.seen <==> c in b + d;
    hide IsZero, Weight;
  }

  lemma {:induction false} VisitWeightsBase(t: Tally, b: set<Content>, o: nat, c: Content)
    requires SeenInv(t, b, {}, {}, 0) && WeightInv(t, b, {}, {}, 0, 0) && !IsZero(c)
    ensures WeightInv(Visit(t, 0, o, c), b + {c}, {}, {}, 0, 0)
  {
    WeightAdd(b, c);
    assert b + {} == b && b + {c} + {} == b + {c};
    assert {} * b == {} && {} * (b + {c}) == {} && {} - b == {} && {} - (b + {c}) == {};
    assert c in t.seen <==> c in b + {};
    hide IsZero, Weight;
  }

  /** Which branch a nonzero chunk takes is its category. */
  lemma {:induction false} VisitCategory(t: Tally, images: seq<seq<Content>>, i: nat, o: nat)
    requires i < |images| && o < |images[i]| && TallyInv(t, images, i, o) && !IsZero(images[i][o])
    ensures var u := Visit(t, i, o, images[i][o]); var n := |images[i][o]|; var k := CategoryOf(images, i, o);
      && u.image.inPlace == t.image.inPlace + (if k == InPlace then n else 0)
      && u.image.elsewhere == t.image.elsewhere + (if k == Elsewhere then n else 0)
      && u.image.prior == t.image.prior + (if k == Prior then n else 0)
      && u.image.within == t.image.within + (if k == Within then n else 0)
      && u.image.newUnique == t.image.newUnique + (if k == New then n else 0)
      && u.image.logical == t.image.logical + n && u.image.zero == t.image.zero
      && u.image.nonzero == t.image.nonzero + n && u.local == t.local + {images[i][o]}
      && u.image.unique == t.image.unique + (if images[i][o] in t.local then 0 else n)
  {
    hide WeightInv, ImageInv, Weight, BytesOf, IsZero;
    var c := images[i][o];
    assert c in t.seen <==> c in BaseSet(images, i, o) + Below(images, i, o);
    if i == 0 { assert Union(images, 1, 0) == {}; }
  }

  lemma {:induction false} VisitZero(t: Tally, i: nat, o: nat, c: Content)
    requires IsZero(c)
    ensures var u := Visit(t, i, o, c);
      && u.seen == t.seen && u.local == t.local && u.fleet == t.fleet && u.d == t.d
      && u.image == t.image.(logical := t.image.logical + |c|, zero := t.image.zero + |c|)
  {
  }

  lemma {:induction false} VisitImage(t: Tally, images: seq<seq<Content>>, i: nat, o: nat)
    requires i < |images| && o < |images[i]| && TallyInv(t, images, i, o)
    ensures ImageInv(Visit(t, i, o, images[i][o]), images, i, o + 1)
  {
    hide TallyInv, Visit, Weight, IsZero, CategoryOf, Distinct;
    DistinctMore(images[i], o);
    TallyImage(t, images, i, o);
    if !IsZero(images[i][o]) {
      VisitCategory(t, images, i, o);
      WeightAdd(t.local, images[i][o]);
    } else {
      VisitZero(t, i, o, images[i][o]);
    }
  }

  lemma {:induction false} TallyImage(t: Tally, images: seq<seq<Content>>, i: nat, o: nat)
    requires i < |images| && o <= |images[i]| && TallyInv(t, images, i, o)
    ensures ImageInv(t, images, i, o)
  {
  }

  lemma {:induction false} VisitBase(t: Tally, images: seq<seq<Content>>, i: nat, o: nat)
    requires i < |images| && o < |images[i]| && BaseInv(t, if i == 0 then images[0][..o] else images[0])
    ensures BaseInv(Visit(t, i, o, images[i][o]), if i == 0 then images[0][..o + 1] else images[0])
  {
    hide IsZero;
    var u := Visit(t, i, o, images[i][o]);
    assert u.base == if i == 0 then t.base + [if IsZero(images[i][o]) then None else Some(images[i][o])] else t.base;
  }

  lemma {:induction false} VisitIndependent(t: Tally, i: nat, o: nat, c: Content)
    ensures Visit(t, i, o, c).d.independent == t.d.independent
  {
    hide IsZero;
  }

  lemma {:induction false} VisitSets(t: Tally, images: seq<seq<Content>>, i: nat, o: nat)
    requires i < |images| && o < |images[i]| && TallyInv(t, images, i, o)
    ensures var u := Visit(t, i, o, images[i][o]); var b := BaseSet(images, i, o + 1);
      && SeenInv(u, b, Union(images, 1, i), Below(images, i, o + 1), i)
      && WeightInv(u, b, Below(images, i, o + 1), Local(images, i, o + 1), SumIn(images, i, b), SumOut(images, i, b))
  {
    hide Visit, SeenInv, WeightInv, BaseInv, IsZero, Distinct, Weight, BytesOf, NonzeroBytes;
    DistinctMore(images[i], o);
    var c := images[i][o];
    if IsZero(c) {
      VisitZero(t, i, o, c);
      SameSets(t, Visit(t, i, o, c), BaseSet(images, i, o), Union(images, 1, i), Below(images, i, o),
        Local(images, i, o), i,
               SumIn(images, i, BaseSet(images, i, o)), SumOut(images, i, BaseSet(images, i, o)));
      assert Distinct(images[i][..o]) + {} == Distinct(images[i][..o]);
    } else if i == 0 {
      assert Union(images, 1, 0) == {} && Below(images, 0, o) == {} && Below(images, 0, o + 1) == {};
      VisitSeenBase(t, BaseSet(images, 0, o), 0, o, c);
      VisitWeightsBase(t, BaseSet(images, 0, o), o, c);
    } else {
      VisitSeen(t, BaseSet(images, i, o), Union(images, 1, i), Below(images, i, o), i, o, c);
      VisitWeights(t, BaseSet(images, i, o), Union(images, 1, i), Local(images, i, o),
                   SumIn(images, i, BaseSet(images, i, o)), SumOut(images, i, BaseSet(images, i, o)), i, o, c);
      assert Below(images, i, o) + {c} == Below(images, i, o + 1);
    }
  }

  lemma {:induction false} SameSets(t: Tally, u: Tally, b: set<Content>, before: set<Content>, d: set<Content>,
      l: set<Content>, i: nat, sumIn: nat, sumOut: nat)
    requires u.seen == t.seen && u.fleet == t.fleet && u.d == t.d
    requires SeenInv(t, b, before, d, i) && WeightInv(t, b, d, l, sumIn, sumOut)
    ensures SeenInv(u, b, before, d, i) && WeightInv(u, b, d, l, sumIn, sumOut)
  {
  }

  lemma {:induction false} VisitKeeps(t: Tally, images: seq<seq<Content>>, i: nat, o: nat)
    requires i < |images| && o < |images[i]| && TallyInv(t, images, i, o)
    ensures TallyInv(Visit(t, i, o, images[i][o]), images, i, o + 1)
  {
    hide Visit, SeenInv, WeightInv, BaseInv, ImageInv, Distinct, Union;
    VisitSets(t, images, i, o);
    VisitImage(t, images, i, o);
    VisitBase(t, images, i, o);
    VisitIndependent(t, i, o, images[i][o]);
  }

  /** The tally as the next image is opened. */
  function Opened(t: Tally, i: nat): Tally {
    t.(d := if i > 0 then t.d.(independent := t.d.independent + t.image.unique)
      else t.d, local := {}, image := NO_IMAGE)
  }

  lemma {:induction false} NextSets(images: seq<seq<Content>>, i: nat)
    requires i + 1 < |images|
    ensures images[i][..|images[i]|] == images[i] && images[i + 1][..0] == []
    ensures BaseSet(images, i + 1, 0) == BaseSet(images, i, |images[i]|) == Distinct(images[0])
    ensures Below(images, i + 1, 0) == Below(images, i, |images[i]|) == Union(images, 1, i + 1)
    ensures Local(images, i + 1, 0) == {}
    ensures Local(images, i, |images[i]|) == if i > 0 then Distinct(images[i]) else {}
  {
    assert images[i][..|images[i]|] == images[i];
    if i == 0 { assert Union(images, 1, 1) == {} && Union(images, 1, 0) == {}; }
  }

  lemma {:induction false} NextSeen(t: Tally, b: set<Content>, before: set<Content>, d: set<Content>, i: nat)
    requires SeenInv(t, b, before, d, i)
    ensures SeenInv(Opened(t, i), b, d, d, i + 1)
  {
  }

  lemma {:induction false} NextWeights(t: Tally, images: seq<seq<Content>>, i: nat, b: set<Content>, d: set<Content>,
      l: set<Content>)
    requires i + 1 < |images| && WeightInv(t, b, d, l, SumIn(images, i, b), SumOut(images, i, b))
    requires if i > 0 then l == Distinct(images[i]) else l == {}
    ensures WeightInv(Opened(t, i), b, d, {}, SumIn(images, i + 1, b), SumOut(images, i + 1, b))
  {
    hide Weight, Distinct;
    WeightNone({}, b);
    if i == 0 { WeightNone(l, b); }
  }

  /** Between two images: the finished one's sets move into the totals. */
  lemma {:induction false} NextImage(t: Tally, images: seq<seq<Content>>, i: nat)
    requires i + 1 < |images| && TallyInv(t, images, i, |images[i]|)
    ensures TallyInv(Opened(t, i), images, i + 1, 0)
  {
    hide SeenInv, WeightInv, Weight, Distinct, BaseSet, Below, Local, Union;
    NextSets(images, i);
    var b := BaseSet(images, i, |images[i]|);
    NextSeen(t, b, Union(images, 1, i), Below(images, i, |images[i]|), i);
    NextWeights(t, images, i, b, Below(images, i, |images[i]|), Local(images, i, |images[i]|));
    WeightNone({}, b);
    NothingDistinct(images[i + 1][..0]);
  }

  lemma {:induction false} NothingDistinct(chunks: seq<Content>)
    requires chunks == []
    ensures Distinct(chunks) == {}
  {
  }

  lemma {:induction false} WeightNone(e: set<Content>, b: set<Content>)
    requires e == {}
    ensures Weight(e) == 0 && e * b == {} && e - b == {}
  {
  }

  // ----- the whole census ----------------------------------------------------

  datatype Report = Report(images: seq<Image>, nonzero: nat, independent: nat, fleet: nat, withinImage: nat,
                           crossImage: nat, descendants: Descendants)

  ghost function SumUnique(images: seq<seq<Content>>, n: nat): nat
    requires n <= |images|
  {
    if n == 0 then 0 else SumUnique(images, n - 1) + Weight(Distinct(images[n - 1]))
  }

  function SumNonzero(images: seq<seq<Content>>, n: nat): nat
    requires n <= |images|
  {
    if n == 0 then 0 else SumNonzero(images, n - 1) + NonzeroBytes(images[n - 1], |images[n - 1]|)
  }

  lemma {:induction false} UniqueWithin(chunks: seq<Content>, o: nat)
    requires o <= |chunks|
    ensures Weight(Distinct(chunks[..o])) <= NonzeroBytes(chunks, o)
    decreases o
  {
    if o == 0 {
      assert Distinct(chunks[..0]) == {};
    } else {
      UniqueWithin(chunks, o - 1);
      DistinctMore(chunks, o - 1);
      hide IsZero, Distinct, Weight;
      if IsZero(chunks[o - 1]) {
        assert Distinct(chunks[..o - 1]) + {} == Distinct(chunks[..o - 1]);
      } else {
        WeightAdd(Distinct(chunks[..o - 1]), chunks[o - 1]);
      }
    }
  }

  lemma {:induction false} UniqueBelowNonzero(images: seq<seq<Content>>, n: nat)
    requires n <= |images|
    ensures SumUnique(images, n) <= SumNonzero(images, n)
    decreases n
  {
    if n > 0 {
      UniqueBelowNonzero(images, n - 1);
      UniqueWithin(images[n - 1], |images[n - 1]|);
      assert images[n - 1][..|images[n - 1]|] == images[n - 1];
    }
  }

  lemma {:induction false} FleetBelowUnique(images: seq<seq<Content>>, n: nat)
    requires n <= |images|
    ensures Weight(Union(images, 0, n)) <= SumUnique(images, n)
    decreases n
  {
    if n > 0 {
      FleetBelowUnique(images, n - 1);
      WeightUnion(Union(images, 0, n - 1), Distinct(images[n - 1]));
    }
  }

  /** One image's counters, by their definition. */
  ghost predicate ImageIs(images: seq<seq<Content>>, i: nat, r: Image)
    requires i < |images|
  {
    var n := |images[i]|;
    && r.unique == Weight(Distinct(images[i])) && r.nonzero == NonzeroBytes(images[i], n)
    && r.logical == LogicalBytes(images[i], n) == r.zero + r.nonzero
    && r.inPlace == BytesOf(images, i, n, InPlace) && r.elsewhere == BytesOf(images, i, n, Elsewhere)
    && r.prior == BytesOf(images, i, n, Prior) && r.within == BytesOf(images, i, n, Within)
    && r.newUnique == BytesOf(images, i, n, New)
  }

  /** The descendants' counters, by set operations on whole images. */
  ghost predicate DescendantsAre(images: seq<seq<Content>>, d: Descendants)
    requires |images| > 0
  {
    var b := Distinct(images[0]);
    var all := Union(images, 1, |images|);
    && d.fleet == Weight(all)
    && d.basePresent == Weight(all * b)
    && d.baseDuplicate == SumIn(images, |images|, b) - Weight(all * b)
    && d.novelDuplicate == SumOut(images, |images|, b) - Weight(all - b)
    && d.independent == SumWhole(images, |images|)
  }

  lemma {:induction false} UnionFrom(images: seq<seq<Content>>, n: nat)
    requires 1 <= n <= |images|
    ensures Union(images, 0, n) == Distinct(images[0]) + Union(images, 1, n)
    decreases n
  {
    if n == 1 {
      assert Union(images, 1, 1) == {} && Union(images, 0, 0) == {};
    } else {
      UnionFrom(images, n - 1);
    }
  }

  lemma {:induction false} LastSets(images: seq<seq<Content>>)
    requires |images| > 0
    ensures var n := |images| - 1; var o := |images[n]|;
      && images[n][..o] == images[n]
      && BaseSet(images, n, o) == Distinct(images[0])
      && Below(images, n, o) == Union(images, 1, |images|)
      && Local(images, n, o) == (if n > 0 then Distinct(images[n]) else {})
      && Union(images, 0, |images|) == Distinct(images[0]) + Union(images, 1, |images|)
  {
    var n := |images| - 1;
    assert images[n][..|images[n]|] == images[n];
    UnionFrom(images, |images|);
    if n == 0 { assert Union(images, 1, 0) == {} && Union(images, 1, 1) == {}; }
  }

  lemma {:induction false} LastSums(images: seq<seq<Content>>, b: set<Content>, l: set<Content>)
    requires |images| > 0 && l == if |images| > 1 then Distinct(images[|images| - 1]) else {}
    ensures SumIn(images, |images|, b) == SumIn(images, |images| - 1, b) + Weight(l * b)
    ensures SumOut(images, |images|, b) == SumOut(images, |images| - 1, b) + Weight(l - b)
  {
    hide Weight, Distinct;
    if |images| == 1 { WeightNone({}, b); }
  }

  lemma {:induction false} Finished(t: Tally, images: seq<seq<Content>>)
    requires |images| > 0 && TallyInv(t, images, |images| - 1, |images[|images| - 1]|)
    ensures t.fleet == Weight(Union(images, 0, |images|))
    ensures DescendantsAre(images, Opened(t, |images| - 1).d)
  {
    hide Weight, Distinct, SeenInv, BaseInv, BytesOf, NonzeroBytes, BaseSet, Below, Local, Union, SumIn, SumOut;
    var n := |images|;
    LastSets(images);
    LastSums(images, Distinct(images[0]), Local(images, n - 1, |images[n - 1]|));
    if n == 1 { NoSums(images, Distinct(images[0])); }
  }

  lemma {:induction false} NoSums(images: seq<seq<Content>>, b: set<Content>)
    requires |images| > 0
    ensures SumIn(images, 1, b) == 0 && SumOut(images, 1, b) == 0
  {
  }

  /** The pass. It refuses only to count no images at all. */
  method Scan(images: seq<seq<Content>>) returns (res: Result<Report, string>)
    ensures res.Ok? <==> images != []
    ensures res.Ok? ==> |res.value.images| == |images| && forall i | 0 <= i < |images| ::
      ImageIs(images, i, res.value.images[i])
    ensures res.Ok? ==>
      res.value.nonzero == SumNonzero(images, |images|) &&
      res.value.independent == SumUnique(images, |images|)
    ensures res.Ok? ==> res.value.fleet == Weight(Union(images, 0, |images|))
    ensures res.Ok? ==> res.value.withinImage == res.value.nonzero - res.value.independent
    ensures res.Ok? ==> res.value.crossImage == res.value.independent - res.value.fleet
    ensures res.Ok? ==> DescendantsAre(images, res.value.descendants)
  {
    hide *;
    if images == [] { return Err("census requires images"); }
    NoImages(images);
    var t := Tally(map[], [], {}, NO_IMAGE, 0, Descendants(0, 0, 0, 0, 0));
    FirstImage(images);
    var reports: seq<Image> := [];
    var nonzero, independent := 0, 0;
    var i := 0;
    while i < |images|
      invariant 0 <= i <= |images| && |reports| == i
      invariant i < |images| ==> TallyInv(t, images, i, 0)
      invariant i == |images| ==> t.fleet == Weight(Union(images, 0, |images|)) && DescendantsAre(images, t.d)
      invariant forall k | 0 <= k < i :: ImageIs(images, k, reports[k])
      invariant nonzero == SumNonzero(images, i) && independent == SumUnique(images, i)
    {
      var o := 0;
      while o < |images[i]|
        invariant o <= |images[i]| && TallyInv(t, images, i, o)
      {
        VisitKeeps(t, images, i, o);
        t := Visit(t, i, o, images[i][o]);
        o := o + 1;
      }
      reports := reports + [t.image];
      nonzero := nonzero + t.image.nonzero;
      independent := independent + t.image.unique;
      ImageDone(t, images, i);
      SumsMore(images, i);
      if i + 1 < |images| {
        NextImage(t, images, i);
      } else {
        Finished(t, images);
      }
      OpenedFleet(t, i);
      t := Opened(t, i);
      i := i + 1;
    }
    UniqueBelowNonzero(images, |images|);
    FleetBelowUnique(images, |images|);
    res := Ok(Report(reports, nonzero, independent, t.fleet, nonzero - independent, independent - t.fleet, t.d));
  }

  lemma {:induction false} FirstImage(images: seq<seq<Content>>)
    requires |images| > 0
    ensures TallyInv(Tally(map[], [], {}, NO_IMAGE, 0, Descendants(0, 0, 0, 0, 0)), images, 0, 0)
  {
    assert images[0][..0] == [];
    WeightNone({}, {});
    assert Union(images, 1, 0) == {} && Below(images, 0, 0) == {} && BaseSet(images, 0, 0) == {};
  }

  lemma {:induction false} NoImages(images: seq<seq<Content>>)
    ensures SumNonzero(images, 0) == 0 && SumUnique(images, 0) == 0
  {
  }

  lemma {:induction false} SumsMore(images: seq<seq<Content>>, i: nat)
    requires i < |images|
    ensures SumNonzero(images, i + 1) == SumNonzero(images, i) + NonzeroBytes(images[i], |images[i]|)
    ensures SumUnique(images, i + 1) == SumUnique(images, i) + Weight(Distinct(images[i]))
  {
  }

  lemma {:induction false} OpenedFleet(t: Tally, i: nat)
    ensures Opened(t, i).fleet == t.fleet
  {
  }

  lemma {:induction false} ImageDone(t: Tally, images: seq<seq<Content>>, i: nat)
    requires i < |images| && TallyInv(t, images, i, |images[i]|)
    ensures ImageIs(images, i, t.image)
    ensures t.image.nonzero == NonzeroBytes(images[i], |images[i]|) && t.image.unique == Weight(Distinct(images[i]))
  {
    assert images[i][..|images[i]|] == images[i];
  }

  // ----- what the definitions say --------------------------------------------

  /** Independent bytes are the fleet's and the redundant copies. */
  lemma {:induction false} Accounts(images: seq<seq<Content>>, d: Descendants)
    requires |images| > 0 && DescendantsAre(images, d)
    ensures d.independent == d.fleet + d.baseDuplicate + d.novelDuplicate
  {
    hide Weight, Distinct, Union, SumIn, SumOut, SumWhole;
    WeightSplit(Union(images, 1, |images|), Distinct(images[0]));
    SumsSplit(images, |images|, Distinct(images[0]));
  }

  /** A descendant's content inside the base, or outside it. */
  ghost function PartOf(k: seq<Content>, b: set<Content>, inside: bool): nat {
    if inside then Weight(Distinct(k) * b) else Weight(Distinct(k) - b)
  }

  ghost function Total(kids: seq<seq<Content>>, b: set<Content>, inside: bool): nat {
    if kids == [] then 0 else PartOf(kids[0], b, inside) + Total(kids[1..], b, inside)
  }

  lemma {:induction false} TotalTake(kids: seq<seq<Content>>, b: set<Content>, inside: bool, i: nat)
    requires i < |kids|
    ensures Total(kids, b, inside) == PartOf(kids[i], b, inside) + Total(kids[..i] + kids[i + 1..], b, inside)
    decreases i
  {
    hide PartOf;
    if i == 0 {
      assert kids[..0] + kids[1..] == kids[1..];
    } else {
      TotalTake(kids[1..], b, inside, i - 1);
      var rest := kids[..i] + kids[i + 1..];
      assert rest[1..] == kids[1..][..i - 1] + kids[1..][i..];
    }
  }

  lemma {:induction false} MultisetTake(s: seq<seq<Content>>, i: nat)
    requires i < |s|
    ensures multiset(s[..i] + s[i + 1..]) == multiset(s) - multiset{s[i]}
  {
    assert s == s[..i] + [s[i]] + s[i + 1..];
  }

  lemma {:induction false} TotalPermuted(k: seq<seq<Content>>, l: seq<seq<Content>>, b: set<Content>, inside: bool)
    requires multiset(k) == multiset(l)
    ensures Total(k, b, inside) == Total(l, b, inside)
    decreases |k|
  {
    hide PartOf;
    if k == [] {
      assert |multiset(l)| == 0;
    } else {
      var i := Partner(k, l);
      TotalTake(l, b, inside, i);
      TotalPermuted(k[1..], l[..i] + l[i + 1..], b, inside);
    }
  }

  /** The first of one list, found in the other; the rests are permutations too. */
  lemma {:induction false} Partner(k: seq<seq<Content>>, l: seq<seq<Content>>) returns (i: nat)
    requires k != [] && multiset(k) == multiset(l)
    ensures i < |l| && l[i] == k[0] && multiset(k[1..]) == multiset(l[..i] + l[i + 1..])
  {
    assert k[0] in multiset(l);
    i :| 0 <= i < |l| && l[i] == k[0];
    MultisetTake(l, i);
    MultisetTake(k, 0);
    assert k[..0] + k[1..] == k[1..];
  }

  lemma {:induction false} TotalLast(kids: seq<seq<Content>>, b: set<Content>, inside: bool)
    requires kids != []
    ensures Total(kids, b, inside) == Total(kids[..|kids| - 1], b, inside) + PartOf(kids[|kids| - 1], b, inside)
  {
    TotalTake(kids, b, inside, |kids| - 1);
    assert kids[..|kids| - 1] + kids[|kids|..] == kids[..|kids| - 1];
  }

  lemma {:induction false} SumsAreTotals(images: seq<seq<Content>>, n: nat, b: set<Content>)
    requires 1 <= n <= |images|
    ensures SumIn(images, n, b) == Total(images[1..n], b, true) && SumOut(images, n, b) == Total(images[1..n], b, false)
    decreases n
  {
    if n > 1 {
      SumsAreTotals(images, n - 1, b);
      var kids := images[1..n];
      assert kids[..|kids| - 1] == images[1..n - 1] && kids[|kids| - 1] == images[n - 1];
      TotalLast(kids, b, true);
      TotalLast(kids, b, false);
    }
  }

  lemma {:induction false} UnionMember(images: seq<seq<Content>>, n: nat, c: Content)
    requires 1 <= n <= |images|
    ensures c in Union(images, 1, n) <==> exists k :: k in images[1..n] && c in Distinct(k)
    decreases n
  {
    hide Distinct;
    if n > 1 {
      UnionMember(images, n - 1, c);
      assert images[1..n] == images[1..n - 1] + [images[n - 1]];
      if c in Union(images, 1, n) {
        if c in Distinct(images[n - 1]) {
          assert images[n - 1] in images[1..n];
        } else {
          var k :| k in images[1..n - 1] && c in Distinct(k);
          assert k in images[1..n];
        }
      }
    }
  }

  lemma {:induction false} UnionPermuted(images: seq<seq<Content>>, shuffled: seq<seq<Content>>)
    requires 0 < |images| == |shuffled| && multiset(images[1..]) == multiset(shuffled[1..])
    ensures Union(images, 1, |images|) == Union(shuffled, 1, |images|)
  {
    hide Union, Distinct;
    assert images[1..|images|] == images[1..] && shuffled[1..|images|] == shuffled[1..];
    assert forall k :: k in images[1..] <==> k in multiset(images[1..]);
    assert forall k :: k in shuffled[1..] <==> k in multiset(shuffled[1..]);
    forall c ensures c in Union(images, 1, |images|) <==> c in Union(shuffled, 1, |images|) {
      UnionMember(images, |images|, c);
      UnionMember(shuffled, |images|, c);
    }
  }

  /** The order of the descendants does not matter. */
  lemma {:induction false} OrderUnseen(images: seq<seq<Content>>, shuffled: seq<seq<Content>>, d: Descendants,
      e: Descendants)
    requires 0 < |images| == |shuffled| && images[0] == shuffled[0] && multiset(images[1..]) == multiset(shuffled[1..])
    requires DescendantsAre(images, d) && DescendantsAre(shuffled, e)
    ensures d == e
  {
    hide Union, SumIn, SumOut, SumWhole, Weight, Distinct, Total;
    var b := Distinct(images[0]);
    SumsSplit(images, |images|, b);
    SumsSplit(shuffled, |images|, b);
    assert images[1..|images|] == images[1..] && shuffled[1..|images|] == shuffled[1..];
    UnionPermuted(images, shuffled);
    SumsAreTotals(images, |images|, b);
    SumsAreTotals(shuffled, |images|, b);
    TotalPermuted(images[1..], shuffled[1..], b, true);
    TotalPermuted(images[1..], shuffled[1..], b, false);
  }
}
