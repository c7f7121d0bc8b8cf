/** Sequence helpers: filtering (a DQL WHERE clause or a PHP loop that keeps
    some elements), first-occurrence de-duplication and first index. */
module Seqs {

  /** The elements of `s` that satisfy `f`, in their original order. */
  function Filter<T(==,!new)>(s: seq<T>, f: T -> bool): (r: seq<T>)
    ensures |r| <= |s|
    ensures forall x :: x in r <==> x in s && f(x)
  {
    if s == [] then []
    else (if f(s[0]) then [s[0]] else []) + Filter(s[1..], f)
  }

  /** Filtering distributes over concatenation. */
  lemma {:induction false} FilterConcat<T(!new)>(a: seq<T>, b: seq<T>, f: T -> bool)
    ensures Filter(a + b, f) == Filter(a, f) + Filter(b, f)
  {
    if a == [] {
      assert a + b == b;
    } else {
      assert (a + b)[1..] == a[1..] + b;
      FilterConcat(a[1..], b, f);
    }
  }

  /** Filtering a prefix extended by one element. */
  lemma FilterSnoc<T(!new)>(s: seq<T>, i: nat, f: T -> bool)
    requires i < |s|
    ensures Filter(s[..i + 1], f) == Filter(s[..i], f) + (if f(s[i]) then [s[i]] else [])
  {
    assert s[..i + 1] == s[..i] + [s[i]];
    FilterConcat(s[..i], [s[i]], f);
  }

  /** Filtering a single element. */
  lemma FilterSingleton<T(!new)>(x: T, f: T -> bool)
    ensures Filter([x], f) == if f(x) then [x] else []
  {
    assert [x][1..] == [];
  }

  /** Filtering around one element. */
  lemma FilterAround<T(!new)>(a: seq<T>, x: T, b: seq<T>, f: T -> bool)
    ensures Filter(a + [x] + b, f) == Filter(a, f) + (if f(x) then [x] else []) + Filter(b, f)
  {
    FilterConcat(a + [x], b, f);
    FilterConcat(a, [x], f);
    FilterSingleton(x, f);
  }

  /** A sequence is its prefix, one element and its suffix. */
  lemma SplitAt<T>(s: seq<T>, k: nat)
    requires k < |s|
    ensures s == s[..k] + [s[k]] + s[k + 1..]
  {
  }

  /** Filtering around one position. */
  lemma FilterSplit<T(!new)>(s: seq<T>, k: nat, f: T -> bool)
    requires k < |s|
    ensures Filter(s, f) == Filter(s[..k], f) + (if f(s[k]) then [s[k]] else []) + Filter(s[k + 1..], f)
  {
    SplitAt(s, k);
    FilterAround(s[..k], s[k], s[k + 1..], f);
  }

  /** The concatenation of `g` applied to each element of `s`, in order. */
  function ConcatMap<T, U>(s: seq<T>, g: T -> seq<U>): seq<U> {
    if s == [] then []
    else ConcatMap(s[..|s| - 1], g) + g(s[|s| - 1])
  }

  /** A value occurs in a concatenation exactly when some element contributes it. */
  lemma {:induction false} ConcatMapListed<T, U>(s: seq<T>, g: T -> seq<U>, x: U)
    ensures x in ConcatMap(s, g) <==> exists i | 0 <= i < |s| :: x in g(s[i])
  {
    if s != [] {
      var init := s[..|s| - 1];
      var last := |s| - 1;
      assert ConcatMap(s, g) == ConcatMap(init, g) + g(s[last]);
      ConcatMapListed(init, g, x);
      if x in ConcatMap(init, g) {
        var i :| 0 <= i < |init| && x in g(init[i]);
        assert s[i] == init[i];
      }
      if exists i | 0 <= i < |s| :: x in g(s[i]) {
        var i :| 0 <= i < |s| && x in g(s[i]);
        if i < last {
          assert s[i] == init[i];
        }
      }
    }
  }

  /** Filtering by a predicate every element satisfies keeps everything. */
  lemma {:induction false} FilterAll<T(!new)>(s: seq<T>, f: T -> bool)
    requires forall i | 0 <= i < |s| :: f(s[i])
    ensures Filter(s, f) == s
  {
    if s != [] {
      assert forall i | 0 <= i < |s[1..]| :: s[1..][i] == s[i + 1];
      FilterAll(s[1..], f);
    }
  }

  /** Filtering out exactly one position shortens the sequence by one. */
  lemma FilterDropsOne<T(!new)>(s: seq<T>, k: nat, f: T -> bool)
    requires k < |s| && !f(s[k])
    requires forall i | 0 <= i < |s| && i != k :: f(s[i])
    ensures |Filter(s, f)| == |s| - 1
  {
    FilterSplit(s, k, f);
    FilterAllAround(s, k, f);
  }

  /** Filtering keeps everything on both sides of the one position it drops. */
  lemma FilterAllAround<T(!new)>(s: seq<T>, k: nat, f: T -> bool)
    requires k < |s|
    requires forall i | 0 <= i < |s| && i != k :: f(s[i])
    ensures Filter(s[..k], f) == s[..k] && Filter(s[k + 1..], f) == s[k + 1..]
  {
    var before := s[..k];
    var after := s[k + 1..];
    assert forall i | 0 <= i < |before| :: before[i] == s[i];
    assert forall i | 0 <= i < |after| :: after[i] == s[k + 1 + i];
    FilterAll(before, f);
    FilterAll(after, f);
  }

  /** Filters that agree on the elements of `s` keep the same elements. */
  lemma {:induction false} FilterSame<T(!new)>(s: seq<T>, f: T -> bool, g: T -> bool)
    requires forall i | 0 <= i < |s| :: f(s[i]) == g(s[i])
    ensures Filter(s, f) == Filter(s, g)
  {
    if s != [] {
      assert forall i | 0 <= i < |s[1..]| :: s[1..][i] == s[i + 1];
      FilterSame(s[1..], f, g);
    }
  }

  /** Filtering by `g` after filtering by a weaker `f` is filtering by `g`. */
  lemma {:induction false} FilterNested<T(!new)>(s: seq<T>, f: T -> bool, g: T -> bool)
    requires forall x :: g(x) ==> f(x)
    ensures Filter(Filter(s, f), g) == Filter(s, g)
  {
    if s != [] {
      FilterNested(s[1..], f, g);
      if f(s[0]) {
        var fs := Filter(s, f);
        assert fs == [s[0]] + Filter(s[1..], f);
        assert fs[0] == s[0] && fs[1..] == Filter(s[1..], f);
        assert Filter(fs, g) == (if g(s[0]) then [s[0]] else []) + Filter(fs[1..], g);
      } else {
        assert !g(s[0]);
        assert Filter(s, f) == Filter(s[1..], f);
      }
    }
  }

  /** When no element satisfies `f`, the filter is empty. */
  lemma FilterNone<T(!new)>(s: seq<T>, f: T -> bool)
    requires forall x :: x in s ==> !f(x)
    ensures Filter(s, f) == []
  {
    if Filter(s, f) != [] {
      assert Filter(s, f)[0] in Filter(s, f);
    }
  }

  /** Elements of `s` in order of first occurrence, each kept once: the
      `continue 2` loops of User::get*FromRoles. */
  function Dedup<T(==,!new)>(s: seq<T>): (r: seq<T>)
    ensures forall x :: x in r <==> x in s
    ensures forall i, j :: 0 <= i < j < |r| ==> r[i] != r[j]
  {
    if s == [] then []
    else
      var d := Dedup(s[..|s| - 1]);
      assert forall x :: x in s <==> x in s[..|s| - 1] || x == s[|s| - 1] by {
        assert s == s[..|s| - 1] + [s[|s| - 1]];
      }
      if s[|s| - 1] in d then d else d + [s[|s| - 1]]
  }

  /** De-duplicating a prefix extended by one element. */
  lemma DedupSnoc<T(!new)>(s: seq<T>, i: nat)
    requires i < |s|
    ensures Dedup(s[..i + 1]) == if s[i] in Dedup(s[..i]) then Dedup(s[..i]) else Dedup(s[..i]) + [s[i]]
  {
    assert s[..i + 1][..i] == s[..i];
  }

  /** The index of the first occurrence of `x` in `s`. */
  function IndexOf<T(==,!new)>(s: seq<T>, x: T): (k: nat)
    requires x in s
    ensures k < |s| && s[k] == x
    ensures forall j :: 0 <= j < k ==> s[j] != x
  {
    if s[0] == x then 0 else 1 + IndexOf(s[1..], x)
  }

  /** Appending an element does not move the first occurrence of anything
      already present, and places a new element at the end. */
  lemma IndexOfSnoc<T(!new)>(s: seq<T>, e: T, x: T)
    requires x in s + [e]
    ensures x in s ==> IndexOf(s + [e], x) == IndexOf(s, x)
    ensures x !in s ==> IndexOf(s + [e], x) == |s|
  {
    var k := IndexOf(s + [e], x);
    if x in s {
      var k' := IndexOf(s, x);
      assert (s + [e])[k'] == x;
      assert forall j :: 0 <= j < k' ==> (s + [e])[j] == s[j];
    } else {
      assert forall j :: 0 <= j < |s| ==> (s + [e])[j] == s[j];
    }
  }

  /** De-duplication keeps the elements in the order of their first
      occurrence in the input. */
  lemma {:induction false} DedupKeepsFirstOccurrenceOrder<T(!new)>(s: seq<T>)
    ensures forall i, j :: 0 <= i < j < |Dedup(s)| ==>
              IndexOf(s, Dedup(s)[i]) < IndexOf(s, Dedup(s)[j])
  {
    if s != [] {
      var s' := s[..|s| - 1];
      var e := s[|s| - 1];
      assert s == s' + [e];
      DedupKeepsFirstOccurrenceOrder(s');
      var d := Dedup(s');
      forall i, j | 0 <= i < j < |Dedup(s)|
        ensures IndexOf(s, Dedup(s)[i]) < IndexOf(s, Dedup(s)[j])
      {
        assert Dedup(s)[i] in d;
        IndexOfSnoc(s', e, Dedup(s)[i]);
        IndexOfSnoc(s', e, Dedup(s)[j]);
        if j < |d| {
          assert Dedup(s)[i] == d[i] && Dedup(s)[j] == d[j];
        } else {
          assert Dedup(s)[j] == e && e !in s';
        }
      }
    }
  }

  /** Every pair of elements, in order, is related by `rel`. */
  predicate Pairwise<T>(s: seq<T>, rel: (T, T) -> bool) {
    forall i, j | 0 <= i < j < |s| :: rel(s[i], s[j])
  }

  /** Filtering keeps a pairwise relation. */
  lemma {:induction false} FilterPairwise<T(!new)>(s: seq<T>, f: T -> bool, rel: (T, T) -> bool)
    requires Pairwise(s, rel)
    ensures Pairwise(Filter(s, f), rel)
  {
    if s != [] {
      FilterPairwise(s[1..], f, rel);
      var rest := Filter(s[1..], f);
      if f(s[0]) {
        var r := Filter(s, f);
        assert r == [s[0]] + rest;
        forall i, j | 0 <= i < j < |r|
          ensures rel(r[i], r[j])
        {
          if i == 0 {
            assert r[j] == rest[j - 1] && rest[j - 1] in s[1..];
            var k :| 0 <= k < |s[1..]| && s[1..][k] == r[j];
            assert s[k + 1] == r[j];
          } else {
            assert r[i] == rest[i - 1] && r[j] == rest[j - 1];
          }
        }
      }
    }
  }

  /** Appending an element related to everything before it keeps a pairwise
      relation. */
  lemma PairwiseSnoc<T>(s: seq<T>, x: T, rel: (T, T) -> bool)
    requires Pairwise(s, rel)
    requires forall i | 0 <= i < |s| :: rel(s[i], x)
    ensures Pairwise(s + [x], rel)
  {
    var r := s + [x];
    forall i, j | 0 <= i < j < |r|
      ensures rel(r[i], r[j])
    {
      if j < |s| {
        assert r[i] == s[i] && r[j] == s[j];
      }
    }
  }

  /** Replacing one element by one related to all the others, in both
      directions, keeps a pairwise relation. */
  lemma PairwiseUpdate<T>(s: seq<T>, k: nat, x: T, rel: (T, T) -> bool)
    requires k < |s| && Pairwise(s, rel)
    requires forall i | 0 <= i < |s| && i != k :: rel(s[i], x) && rel(x, s[i])
    ensures Pairwise(s[k := x], rel)
  {
    var r := s[k := x];
    forall i, j | 0 <= i < j < |r|
      ensures rel(r[i], r[j])
    {
      if i != k && j != k {
        assert r[i] == s[i] && r[j] == s[j];
      }
    }
  }
}
