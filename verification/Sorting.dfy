/** Insertion order by a numeric key, standing for the library's sort. */
module Sorting {

  function Insert<T>(x: T, s: seq<T>, key: T -> nat): (r: seq<T>)
    ensures |r| == |s| + 1
  {
    if s == [] || key(x) <= key(s[0]) then [x] + s else [s[0]] + Insert(x, s[1..], key)
  }

  function Sort<T>(s: seq<T>, key: T -> nat): (r: seq<T>)
    ensures |r| == |s|
  {
    if s == [] then [] else Insert(s[0], Sort(s[1..], key), key)
  }

  ghost predicate Ascending<T>(s: seq<T>, key: T -> nat) {
    forall i, j | 0 <= i < j < |s| :: key(s[i]) <= key(s[j])
  }

  /** No two places agree on `tag`. */
  ghost predicate Apart<T(!new), U(!new)>(s: seq<T>, tag: T -> U) {
    forall i, j | 0 <= i < j < |s| :: tag(s[i]) != tag(s[j])
  }

  lemma {:induction false} InsertMember<T>(x: T, s: seq<T>, key: T -> nat, y: T)
    ensures y in Insert(x, s, key) <==> y == x || y in s
    decreases |s|
  {
    if s == [] || key(x) <= key(s[0]) {
    } else {
      InsertMember(x, s[1..], key, y);
      assert s == [s[0]] + s[1..];
    }
  }

  lemma {:induction false} SortMember<T>(s: seq<T>, key: T -> nat, y: T)
    ensures y in Sort(s, key) <==> y in s
    decreases |s|
  {
    if s != [] {
      SortMember(s[1..], key, y);
      InsertMember(s[0], Sort(s[1..], key), key, y);
      assert s == [s[0]] + s[1..];
    }
  }

  lemma {:induction false} InsertPermutes<T>(x: T, s: seq<T>, key: T -> nat)
    ensures multiset(Insert(x, s, key)) == multiset(s) + multiset{x}
    decreases |s|
  {
    if s == [] || key(x) <= key(s[0]) {
    } else {
      InsertPermutes(x, s[1..], key);
      assert s == [s[0]] + s[1..];
    }
  }

  lemma {:induction false} SortPermutes<T>(s: seq<T>, key: T -> nat)
    ensures multiset(Sort(s, key)) == multiset(s)
    decreases |s|
  {
    if s != [] {
      SortPermutes(s[1..], key);
      InsertPermutes(s[0], Sort(s[1..], key), key);
      assert s == [s[0]] + s[1..];
    }
  }

  /** No number appears twice. */
  ghost predicate Unique(s: seq<nat>) {
    forall i, j | 0 <= i < j < |s| :: s[i] != s[j]
  }

  lemma {:induction false} UniqueCounts(s: seq<nat>)
    ensures Unique(s) <==> forall v :: multiset(s)[v] <= 1
    decreases |s|
  {
    if s != [] {
      var rest := s[..|s| - 1];
      var last := s[|s| - 1];
      assert s == rest + [last];
      UniqueCounts(rest);
      if Unique(s) {
        assert last !in rest;
      } else if Unique(rest) {
        var i, j :| 0 <= i < j < |s| && s[i] == s[j];
        assert j == |s| - 1;
        assert rest[i] == last;
        assert multiset(s)[last] >= 2;
      } else {
        var v :| multiset(rest)[v] > 1;
        assert multiset(s)[v] > 1;
      }
    }
  }

  function Itself(): nat -> nat { (x: nat) => x }

  lemma {:induction false} UniqueSorted(s: seq<nat>)
    ensures Unique(s) <==> Unique(Sort(s, Itself()))
  {
    SortPermutes(s, Itself());
    UniqueCounts(s);
    UniqueCounts(Sort(s, Itself()));
  }

  /** In ascending order, a repeated number shows up next to itself. */
  method Repeats(s: seq<nat>) returns (found: bool)
    ensures found <==> !Unique(s)
  {
    var t := Sort(s, Itself());
    UniqueSorted(s);
    SortAscending(s, Itself());
    var i := 1;
    while i < |t|
      invariant 1 <= i
      invariant forall x, y | 0 <= x < y < i && y < |t| :: t[x] != t[y]
    {
      if t[i - 1] == t[i] { return true; }
      forall x | 0 <= x < i ensures t[x] != t[i] {
        assert Itself()(t[x]) <= Itself()(t[i]);
        assert x < i - 1 ==> Itself()(t[x]) <= Itself()(t[i - 1]) <= Itself()(t[i]);
      }
      i := i + 1;
    }
    found := false;
  }

  lemma {:induction false} InsertAscending<T>(x: T, s: seq<T>, key: T -> nat)
    requires Ascending(s, key)
    ensures Ascending(Insert(x, s, key), key)
    decreases |s|
  {
    var r := Insert(x, s, key);
    if s == [] || key(x) <= key(s[0]) {
    } else {
      var rest := Insert(x, s[1..], key);
      InsertAscending(x, s[1..], key);
      forall j | 0 <= j < |rest| ensures key(s[0]) <= key(rest[j]) {
        InsertMember(x, s[1..], key, rest[j]);
        if rest[j] in s[1..] {
          var i :| 0 <= i < |s[1..]| && s[1..][i] == rest[j];
          assert s[i + 1] == rest[j];
        }
      }
    }
  }

  lemma {:induction false} SortAscending<T>(s: seq<T>, key: T -> nat)
    ensures Ascending(Sort(s, key), key)
    decreases |s|
  {
    if s != [] {
      SortAscending(s[1..], key);
      InsertAscending(s[0], Sort(s[1..], key), key);
    }
  }

  lemma {:induction false} InsertApart<T(!new), U(!new)>(x: T, s: seq<T>, key: T -> nat, tag: T -> U)
    requires Apart(s, tag)
    requires forall i | 0 <= i < |s| :: tag(s[i]) != tag(x)
    ensures Apart(Insert(x, s, key), tag)
    decreases |s|
  {
    if s == [] || key(x) <= key(s[0]) {
    } else {
      var rest := Insert(x, s[1..], key);
      InsertApart(x, s[1..], key, tag);
      forall j | 0 <= j < |rest| ensures tag(s[0]) != tag(rest[j]) {
        InsertMember(x, s[1..], key, rest[j]);
        if rest[j] in s[1..] {
          var i :| 0 <= i < |s[1..]| && s[1..][i] == rest[j];
          assert s[i + 1] == rest[j];
        }
      }
    }
  }

  lemma {:induction false} SortApart<T(!new), U(!new)>(s: seq<T>, key: T -> nat, tag: T -> U)
    requires Apart(s, tag)
    ensures Apart(Sort(s, key), tag)
    decreases |s|
  {
    if s != [] {
      var rest := Sort(s[1..], key);
      SortApart(s[1..], key, tag);
      forall i | 0 <= i < |rest| ensures tag(rest[i]) != tag(s[0]) {
        SortMember(s[1..], key, rest[i]);
        var k :| 0 <= k < |s[1..]| && s[1..][k] == rest[i];
        assert s[k + 1] == rest[i];
      }
      InsertApart(s[0], rest, key, tag);
    }
  }
}
