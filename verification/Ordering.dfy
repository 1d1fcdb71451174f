/** Sorting, filtering and de-duplication of lists, and how they behave when a list is permuted.
    `SortBy` stands for the Go library's stable sort; the rest of the project relies only on
    the lemmas below. */
module Ordering {

  ghost predicate TotalPreorder<T(!new)>(leq: (T, T) -> bool) {
    && (forall x, y :: leq(x, y) || leq(y, x))
    && (forall x, y, z :: leq(x, y) && leq(y, z) ==> leq(x, z))
  }

  ghost predicate Sorted<T>(leq: (T, T) -> bool, s: seq<T>) {
    forall i, j :: 0 <= i < j < |s| ==> leq(s[i], s[j])
  }

  /** No two different elements of `s` tie under `leq`. */
  ghost predicate Antisymmetric<T>(leq: (T, T) -> bool, s: seq<T>) {
    forall x, y :: x in s && y in s && leq(x, y) && leq(y, x) ==> x == y
  }

  predicate NoDuplicates<T(==)>(s: seq<T>) {
    forall i, j :: 0 <= i < j < |s| ==> s[i] != s[j]
  }

  /** Puts `x` in front of the first element it does not exceed: equal elements keep their order. */
  function InsertSorted<T>(leq: (T, T) -> bool, x: T, s: seq<T>): (r: seq<T>)
    ensures multiset(r) == multiset{x} + multiset(s)
  {
    if s == [] || leq(x, s[0]) then
      [x] + s
    else
      assert s == [s[0]] + s[1..];
      [s[0]] + InsertSorted(leq, x, s[1..])
  }

  function SortBy<T>(leq: (T, T) -> bool, s: seq<T>): (r: seq<T>)
    ensures multiset(r) == multiset(s)
    ensures |r| == |s|
  {
    if s == [] then [] else
      assert s == [s[0]] + s[1..];
      var r := InsertSorted(leq, s[0], SortBy(leq, s[1..]));
      assert |multiset(r)| == |r| && |multiset(s)| == |s|;
      r
  }

  lemma InsertKeepsSorted<T(!new)>(leq: (T, T) -> bool, x: T, s: seq<T>)
    requires TotalPreorder(leq) && Sorted(leq, s)
    ensures Sorted(leq, InsertSorted(leq, x, s))
  {
    if s != [] && !leq(x, s[0]) {
      var t := InsertSorted(leq, x, s[1..]);
      InsertKeepsSorted(leq, x, s[1..]);
      forall i | 0 <= i < |t| ensures leq(s[0], t[i]) {
        assert t[i] in multiset(t);
        assert t[i] == x || t[i] in multiset(s[1..]);
        assert t[i] == x || t[i] in s[1..];
      }
    }
  }

  lemma SortBySorted<T(!new)>(leq: (T, T) -> bool, s: seq<T>)
    requires TotalPreorder(leq)
    ensures Sorted(leq, SortBy(leq, s))
  {
    if s != [] {
      SortBySorted(leq, s[1..]);
      InsertKeepsSorted(leq, s[0], SortBy(leq, s[1..]));
    }
  }

  lemma SameElements<T>(a: seq<T>, b: seq<T>)
    requires multiset(a) == multiset(b)
    ensures |a| == |b|
    ensures forall x :: x in a <==> x in b
  {
    assert |multiset(a)| == |a| && |multiset(b)| == |b|;
    forall x ensures x in a <==> x in b {
      assert x in a <==> x in multiset(a);
      assert x in b <==> x in multiset(b);
    }
  }

  lemma SameHeads<T(!new)>(leq: (T, T) -> bool, a: seq<T>, b: seq<T>)
    requires TotalPreorder(leq)
    requires Sorted(leq, a) && Sorted(leq, b)
    requires multiset(a) == multiset(b) && a != []
    requires Antisymmetric(leq, a)
    ensures b != [] && a[0] == b[0]
  {
    SameElements(a, b);
    assert a[0] in b && b[0] in a;
    var i :| 0 <= i < |b| && b[i] == a[0];
    var j :| 0 <= j < |a| && a[j] == b[0];
    assert leq(a[0], a[0]) && leq(b[0], b[0]);
    assert leq(b[0], b[i]) && leq(a[0], a[j]);
  }

  /** A sorted arrangement of a multiset is unique when nothing ties. */
  lemma {:induction false} SortedUnique<T(!new)>(leq: (T, T) -> bool, a: seq<T>, b: seq<T>)
    requires TotalPreorder(leq)
    requires Sorted(leq, a) && Sorted(leq, b)
    requires multiset(a) == multiset(b)
    requires Antisymmetric(leq, a)
    ensures a == b
  {
    SameElements(a, b);
    if a != [] {
      SameHeads(leq, a, b);
      RemoveFirst(a);
      RemoveFirst(b);
      SplitHead(a);
      SplitHead(b);
      SortedUnique(leq, a[1..], b[1..]);
    }
  }

  lemma SortOfPermutation<T(!new)>(leq: (T, T) -> bool, a: seq<T>, b: seq<T>)
    requires TotalPreorder(leq)
    requires multiset(a) == multiset(b)
    requires Antisymmetric(leq, a)
    ensures SortBy(leq, a) == SortBy(leq, b)
  {
    SortBySorted(leq, a);
    SortBySorted(leq, b);
    SameElements(SortBy(leq, a), a);
    SortedUnique(leq, SortBy(leq, a), SortBy(leq, b));
  }

  lemma SortOfSorted<T(!new)>(leq: (T, T) -> bool, a: seq<T>)
    requires Sorted(leq, a)
    ensures SortBy(leq, a) == a
  {
    if a != [] {
      assert Sorted(leq, a[1..]);
      SortOfSorted(leq, a[1..]);
      if |a| > 1 {
        assert leq(a[0], a[1]);
      }
    }
  }

  // ----- lists without repetition -----

  /** The elements of `s` in order of first appearance. */
  function Distinct<T(==,!new)>(s: seq<T>): (r: seq<T>)
    ensures forall x :: x in r <==> x in s
    ensures NoDuplicates(r)
    ensures |r| <= |s|
  {
    if s == [] then []
    else
      var n := |s| - 1;
      assert s == s[..n] + [s[n]];
      if s[n] in s[..n] then Distinct(s[..n]) else Distinct(s[..n]) + [s[n]]
  }

  lemma DistinctSnoc<T(!new)>(s: seq<T>, x: T)
    ensures Distinct(s + [x]) == if x in s then Distinct(s) else Distinct(s) + [x]
  {
    var t := s + [x];
    assert t[..|t| - 1] == s && t[|t| - 1] == x;
  }

  lemma DistinctOfNoDuplicates<T(!new)>(s: seq<T>)
    requires NoDuplicates(s)
    ensures Distinct(s) == s
  {
    if s != [] {
      var n := |s| - 1;
      assert s == s[..n] + [s[n]];
      DistinctOfNoDuplicates(s[..n]);
    }
  }

  lemma CountNoDuplicates<T>(s: seq<T>, x: T)
    requires NoDuplicates(s)
    ensures multiset(s)[x] == if x in s then 1 else 0
  {
    if s != [] {
      assert s == [s[0]] + s[1..];
      CountNoDuplicates(s[1..], x);
    }
  }

  lemma SameSetSameMultiset<T(!new)>(a: seq<T>, b: seq<T>)
    requires NoDuplicates(a) && NoDuplicates(b)
    requires forall x :: x in a <==> x in b
    ensures multiset(a) == multiset(b)
  {
    forall x ensures multiset(a)[x] == multiset(b)[x] {
      CountNoDuplicates(a, x);
      CountNoDuplicates(b, x);
    }
  }

  lemma TwiceCounted<T>(s: seq<T>, i: nat, j: nat)
    requires i < j < |s| && s[i] == s[j]
    ensures multiset(s)[s[i]] >= 2
  {
    assert s == s[..i] + [s[i]] + s[i + 1..j] + [s[j]] + s[j + 1..];
  }

  lemma NoDuplicatesPermutes<T(!new)>(a: seq<T>, b: seq<T>)
    requires NoDuplicates(a) && multiset(a) == multiset(b)
    ensures NoDuplicates(b)
  {
    forall i, j | 0 <= i < j < |b| ensures b[i] != b[j] {
      CountNoDuplicates(a, b[i]);
      if b[i] == b[j] {
        TwiceCounted(b, i, j);
      }
    }
  }

  function SetOf<T(==,!new)>(s: seq<T>): (r: set<T>)
    ensures forall x {:trigger x in r} :: x in r <==> x in s
  {
    set x | x in s
  }

  lemma SubsetSize<T>(a: set<T>, b: set<T>)
    requires a <= b
    ensures |a| <= |b|
  {
    if a != {} {
      var x :| x in a;
      SubsetSize(a - {x}, b - {x});
    }
  }

  lemma NoDuplicatesSize<T>(s: seq<T>)
    requires NoDuplicates(s)
    ensures |set x | x in s| == |s|
  {
    if s != [] {
      var n := |s| - 1;
      NoDuplicatesSize(s[..n]);
      assert (set x | x in s) == (set x | x in s[..n]) + {s[n]};
    }
  }

  lemma ConcatAssociative<T>(a: seq<T>, b: seq<T>, c: seq<T>)
    ensures (a + b) + c == a + (b + c)
  {
  }

  lemma SplitLast<T>(s: seq<T>)
    requires s != []
    ensures s == s[..|s| - 1] + [s[|s| - 1]]
    ensures forall x :: x in s <==> x in s[..|s| - 1] || x == s[|s| - 1]
  {
  }

  lemma TakeNext<T>(s: seq<T>, k: nat)
    requires k < |s|
    ensures s[..k + 1] == s[..k] + [s[k]]
  {
  }

  lemma SplitHead<T>(s: seq<T>)
    requires s != []
    ensures s == [s[0]] + s[1..]
  {
  }

  lemma SplitAt<T>(s: seq<T>, i: nat)
    requires i < |s|
    ensures s == s[..i] + ([s[i]] + s[i + 1..])
  {
  }

  // ----- map and filter -----

  function MapSeq<A, B>(f: A -> B, s: seq<A>): (r: seq<B>)
    ensures |r| == |s|
    ensures forall i :: 0 <= i < |s| ==> r[i] == f(s[i])
  {
    seq(|s|, i requires 0 <= i < |s| => f(s[i]))
  }

  function Filter<A(!new)>(p: A -> bool, s: seq<A>): (r: seq<A>)
    ensures forall x :: x in r <==> x in s && p(x)
    ensures |r| <= |s|
  {
    if s == [] then []
    else
      var n := |s| - 1;
      assert s == s[..n] + [s[n]];
      Filter(p, s[..n]) + if p(s[n]) then [s[n]] else []
  }

  lemma FilterSnoc<A(!new)>(p: A -> bool, s: seq<A>, x: A)
    ensures Filter(p, s + [x]) == Filter(p, s) + if p(x) then [x] else []
  {
    var t := s + [x];
    assert t[..|t| - 1] == s && t[|t| - 1] == x;
  }

  lemma FilterStep<A(!new)>(p: A -> bool, s: seq<A>, x: A)
    ensures Filter(p, s + [x]) == if p(x) then Filter(p, s) + [x] else Filter(p, s)
  {
    FilterSnoc(p, s, x);
  }

  lemma {:induction false} FilterNone<A(!new)>(p: A -> bool, s: seq<A>)
    requires forall x :: x in s ==> !p(x)
    ensures Filter(p, s) == []
  {
    if s != [] {
      SplitLast(s);
      FilterNone(p, s[..|s| - 1]);
      FilterStep(p, s[..|s| - 1], s[|s| - 1]);
    }
  }

  lemma {:induction false} FilterConcat<A(!new)>(p: A -> bool, s: seq<A>, t: seq<A>)
    ensures Filter(p, s + t) == Filter(p, s) + Filter(p, t)
  {
    if t == [] {
      assert s + t == s;
    } else {
      var n := |t| - 1;
      assert t == t[..n] + [t[n]];
      assert s + t == (s + t[..n]) + [t[n]];
      FilterConcat(p, s, t[..n]);
      FilterSnoc(p, s + t[..n], t[n]);
      FilterSnoc(p, t[..n], t[n]);
    }
  }

  lemma MapSnoc<A, B>(f: A -> B, s: seq<A>, x: A)
    ensures MapSeq(f, s + [x]) == MapSeq(f, s) + [f(x)]
  {
  }

  lemma FilterCount<A(!new)>(p: A -> bool, s: seq<A>, x: A)
    ensures multiset(Filter(p, s))[x] == if p(x) then multiset(s)[x] else 0
  {
    if s != [] {
      var n := |s| - 1;
      assert s == s[..n] + [s[n]];
      FilterCount(p, s[..n], x);
    }
  }

  lemma FilterPermutes<A(!new)>(p: A -> bool, a: seq<A>, b: seq<A>)
    requires multiset(a) == multiset(b)
    ensures multiset(Filter(p, a)) == multiset(Filter(p, b))
  {
    forall x ensures multiset(Filter(p, a))[x] == multiset(Filter(p, b))[x] {
      FilterCount(p, a, x);
      FilterCount(p, b, x);
    }
  }

  lemma FilterNoDuplicates<A(!new)>(p: A -> bool, s: seq<A>)
    requires NoDuplicates(s)
    ensures NoDuplicates(Filter(p, s))
  {
    if s != [] {
      FilterNoDuplicates(p, s[..|s| - 1]);
    }
  }

  lemma RemoveAt<A>(s: seq<A>, i: nat)
    requires i < |s|
    ensures multiset(s[..i] + s[i + 1..]) == multiset(s) - multiset{s[i]}
    ensures multiset(s) == multiset(s[..i] + s[i + 1..]) + multiset{s[i]}
  {
    assert s == s[..i] + [s[i]] + s[i + 1..];
  }

  lemma RemoveFirst<A>(s: seq<A>)
    requires s != []
    ensures multiset(s[1..]) == multiset(s) - multiset{s[0]}
  {
    assert s == [s[0]] + s[1..];
  }

  lemma MapRemoveAt<A, B>(f: A -> B, s: seq<A>, i: nat)
    requires i < |s|
    ensures multiset(MapSeq(f, s)) == multiset(MapSeq(f, s[..i] + s[i + 1..])) + multiset{f(s[i])}
  {
    var m := MapSeq(f, s);
    RemoveAt(m, i);
    assert m[..i] + m[i + 1..] == MapSeq(f, s[..i] + s[i + 1..]);
  }

  /** The position in `b` of the first element of `a`, and what is left of both. */
  lemma FoundIn<A>(a: seq<A>, b: seq<A>) returns (i: nat)
    requires multiset(a) == multiset(b) && a != []
    ensures i < |b| && b[i] == a[0]
    ensures multiset(a[..0] + a[1..]) == multiset(b[..i] + b[i + 1..])
  {
    SameElements(a, b);
    assert a[0] in b;
    i :| 0 <= i < |b| && b[i] == a[0];
    RemoveAt(a, 0);
    RemoveAt(b, i);
  }

  lemma {:induction false} MapPermutes<A, B>(f: A -> B, a: seq<A>, b: seq<A>)
    requires multiset(a) == multiset(b)
    ensures multiset(MapSeq(f, a)) == multiset(MapSeq(f, b))
    decreases |a|
  {
    if a == [] {
      SameElements(a, b);
    } else {
      hide MapSeq;
      var i := FoundIn(a, b);
      var a', b' := a[..0] + a[1..], b[..i] + b[i + 1..];
      MapRemoveAt(f, a, 0);
      MapRemoveAt(f, b, i);
      MapPermutes(f, a', b');
    }
  }

  /** A rearranged image of a list is the image of the list rearranged. */
  lemma {:induction false} PermutationLifts<A, B>(f: A -> B, a: seq<A>, b: seq<B>) returns (c: seq<A>)
    requires multiset(MapSeq(f, a)) == multiset(b)
    ensures multiset(c) == multiset(a) && MapSeq(f, c) == b
    decreases |b|
  {
    SameElements(MapSeq(f, a), b);
    if b == [] {
      c := [];
    } else {
      hide MapSeq;
      var i := FoundIn(b, MapSeq(f, a));
      var rest := a[..i] + a[i + 1..];
      MapWithout(f, a, i);
      ConcatEmpty(b);
      var d := PermutationLifts(f, rest, b[1..]);
      RemoveAt(a, i);
      c := [a[i]] + d;
      SplitHead(b);
      MapCons(f, a[i], d);
    }
  }

  lemma ConcatEmpty<A>(b: seq<A>)
    requires b != []
    ensures b[..0] + b[1..] == b[1..]
  {
  }

  lemma MapWithout<A, B>(f: A -> B, a: seq<A>, i: nat)
    requires i < |a|
    ensures MapSeq(f, a)[i] == f(a[i])
    ensures MapSeq(f, a[..i] + a[i + 1..]) == MapSeq(f, a)[..i] + MapSeq(f, a)[i + 1..]
  {
  }

  lemma MapCons<A, B>(f: A -> B, x: A, s: seq<A>)
    ensures MapSeq(f, [x] + s) == [f(x)] + MapSeq(f, s)
  {
  }

  lemma {:induction false} FilterKeepsDistinctKeys<A(!new), B(!new)>(key: A -> B, p: A -> bool, s: seq<A>)
    requires NoDuplicates(MapSeq(key, s))
    ensures NoDuplicates(MapSeq(key, Filter(p, s)))
  {
    if s != [] {
      var n := |s| - 1;
      SplitLast(s);
      assert MapSeq(key, s[..n]) == MapSeq(key, s)[..n];
      FilterKeepsDistinctKeys(key, p, s[..n]);
      FilterStep(p, s[..n], s[n]);
      if p(s[n]) {
        var g := Filter(p, s[..n]);
        MapSnoc(key, g, s[n]);
        forall k | 0 <= k < |g| ensures key(g[k]) != key(s[n]) {
          assert g[k] in s[..n];
          var j :| 0 <= j < n && s[..n][j] == g[k];
          assert MapSeq(key, s)[j] != MapSeq(key, s)[n];
        }
      }
    }
  }

  lemma {:induction false} FilterMapCommute<A(!new), B(!new)>(p: B -> bool, f: A -> B, s: seq<A>)
    ensures Filter(p, MapSeq(f, s)) == MapSeq(f, Filter(x => p(f(x)), s))
  {
    if s != [] {
      var n := |s| - 1;
      FilterMapCommute(p, f, s[..n]);
      assert MapSeq(f, s)[..n] == MapSeq(f, s[..n]);
    }
  }
}
