/** The sharing that does happen: findings of one signature all list the same literal, an array without room to
    spare (internal/adapters/vulnsig.go). Correlation may then sort the literal under the feet of every finding, but
    no list gains or loses an entry; and as the literals are sorted to begin with, nothing changes at all. */
module SharedFull {
  import opened Text
  import opened Ordering
  import opened Findings
  import opened Slices
  import opened FindingRecords
  import opened SharedSlices

  /** Lists that share an array fill it. */
  ghost predicate SharersFill(lists: seq<Slice<string>>) {
    forall i, j :: 0 <= i < |lists| && 0 <= j < |lists| && i != j && lists[i].backing == lists[j].backing ==>
      lists[i].len >= lists[i].backing.Length
  }

  ghost predicate Sharers(lists: seq<Slice<string>>, i: nat)
    requires i < |lists|
  {
    exists j :: 0 <= j < |lists| && j != i && lists[j].backing == lists[i].backing
  }

  // ----- merging does not depend on the order of either list -----

  lemma {:induction false} AppendNewCount(a: seq<string>, b: seq<string>, z: string)
    ensures multiset(AppendNew(a, b))[z] == if z in a then multiset(a)[z] else if z in b then 1 else 0
  {
    if b == [] {
      NothingNew(a);
    } else {
      var n := |b| - 1;
      SplitLast(b);
      AppendNewCount(a, b[..n], z);
      AppendNewSnoc(a, b[..n], b[n]);
      AppendNewMembers(a, b[..n]);
    }
  }

  lemma MergeUniquePermutes(a: seq<string>, b: seq<string>, c: seq<string>, d: seq<string>)
    requires multiset(a) == multiset(c) && multiset(b) == multiset(d)
    ensures MergeUnique(a, b) == MergeUnique(c, d) && |AppendNew(a, b)| == |AppendNew(c, d)|
  {
    hide AppendNew, SortStrings;
    SameElements(a, c);
    SameElements(b, d);
    forall z ensures multiset(AppendNew(a, b))[z] == multiset(AppendNew(c, d))[z] {
      AppendNewCount(a, b, z);
      AppendNewCount(c, d, z);
    }
    assert multiset(AppendNew(a, b)) == multiset(AppendNew(c, d));
    SortIsCanonical(AppendNew(a, b), AppendNew(c, d));
  }

  lemma NothingLonger(a: seq<string>, b: seq<string>)
    requires |AppendNew(a, b)| <= |a|
    ensures AppendNew(a, b) == a
  {
    AppendNewMembers(a, b);
  }

  lemma MergePermutes(a: seq<string>, later: seq<seq<string>>, sofar: seq<string>, b: seq<string>, d: seq<string>)
    requires multiset(sofar) == multiset(Chain([a] + later)) && multiset(b) == multiset(d)
    ensures MergeUnique(sofar, b) == Chain([a] + (later + [d]))
    ensures |a| <= |sofar| <= |AppendNew(sofar, b)| == |AppendNew(a, Flat(later + [d]))|
  {
    hide AppendNew, SortStrings, Chain;
    ConcatAssociative([a], later, [d]);
    ChainSnoc([a] + later, d);
    MergeUniquePermutes(sofar, b, Chain([a] + later), d);
    ChainIsOneSort(a, later);
    FlatSnoc(later, d);
    OneMoreMerge(a, Flat(later), d, Chain([a] + later));
    ChainKeepsLength(a, later);
    SameElements(sofar, Chain([a] + later));
    AppendNewMembers(sofar, b);
  }

  lemma ChainIsSorted(a: seq<string>, later: seq<seq<string>>)
    requires later != []
    ensures SortStrings(Chain([a] + later)) == Chain([a] + later)
  {
    hide AppendNew, SortStrings;
    ChainIsOneSort(a, later);
    SortIsCanonical(Chain([a] + later), AppendNew(a, Flat(later)));
  }

  // ----- one group -----

  /** The list of a group while it is folded: that of its members but for the order, and exactly so once two of
      them were merged. It is kept in the array it started in as long as the merges fit; it fills that array if
      others look into it, and else leaves there what the caller sees. */
  ghost predicate Rests(c: Column, id: string, s: Slice<string>, shared: bool, a: seq<string>, later: seq<seq<string>>) {
    var x, arr := s.backing, At(c.heap, s.backing);
    && x in c.heap && id in c.held && |arr| == x.Length && |a| <= |arr|
    && (if later == [] then c.held[id] == Kept(s) else ListOf(c.heap, c.held[id]) == Chain([a] + later))
    && multiset(ListOf(c.heap, c.held[id])) == multiset(Chain([a] + later))
    && (c.held[id].Kept? <==> Fitting(a, x.Length, later) == |later|)
    && (c.held[id].Kept? ==> c.held[id].s.backing == x && (shared ==> Shown(c.heap, c.held[id].s) == arr))
    && (!shared ==> arr[..|a|] == CallerSees(a, x.Length, later))
  }

  lemma RestsMeans(c: Column, id: string, s: Slice<string>, shared: bool, a: seq<string>, later: seq<seq<string>>)
    requires Rests(c, id, s, shared, a, later)
    ensures s.backing in c.heap && id in c.held && (c.held[id].Kept? ==> c.held[id].s.backing == s.backing)
    ensures |a| <= s.backing.Length == |At(c.heap, s.backing)|
  {
  }

  lemma RestsAtFirst(c: Column, id: string, s: Slice<string>, shared: bool, a: seq<string>)
    requires s.backing in c.heap && id in c.held && c.held[id] == Kept(s) && |At(c.heap, s.backing)| == s.backing.Length
    requires multiset(Shown(c.heap, s)) == multiset(a)
    requires if shared then Shown(c.heap, s) == At(c.heap, s.backing) else Shown(c.heap, s) == a
    ensures Rests(c, id, s, shared, a, [])
  {
    assert [a] + [] == [a];
    SameElements(Shown(c.heap, s), a);
  }

  /** What one more merge leaves in the array of the group: the caller's list as it then is, and if others look into
      the array, all of it as it was or, when the merge fitted, sorted. */
  ghost predicate LeftBehind(was: seq<string>, arr: seq<string>, shared: bool, a: seq<string>, capacity: nat, later: seq<seq<string>>,
                             d: seq<string>)
    requires |a| <= |arr|
  {
    && (!shared ==> arr[..|a|] == CallerSees(a, capacity, later + [d]))
    && (shared ==> arr == if Fitting(a, capacity, later + [d]) > |later| then SortStrings(was) else was)
  }

  /** The merge fits: it is sorted in place. */
  lemma MergeInPlace(arr: seq<string>, sofar: seq<string>, b: seq<string>, shared: bool, a: seq<string>, capacity: nat,
                     later: seq<seq<string>>, d: seq<string>)
    requires multiset(sofar) == multiset(Chain([a] + later)) && multiset(b) == multiset(d)
    requires |sofar| <= |arr| == capacity && arr[..|sofar|] == sofar && (shared ==> sofar == arr)
    requires Fitting(a, capacity, later) == |later| && |AppendNew(sofar, b)| <= |arr|
    ensures |a| <= |arr| && LeftBehind(arr, ArrayAfter(arr, |sofar|, b), shared, a, capacity, later, d)
    ensures ArrayAfter(arr, |sofar|, b)[..|AppendNew(sofar, b)|] == MergeUnique(sofar, b)
    ensures Fitting(a, capacity, later + [d]) == |later| + 1
  {
    hide AppendNew, SortStrings, Chain, CallerSees, Fitting;
    MergePermutes(a, later, sofar, b, d);
    FittingSnoc(a, capacity, later, d);
    CallerSeesTheLast(a, capacity, later + [d]);
    var all := AppendNew(sofar, b);
    SortKeepsLength(all);
    var after := ArrayAfter(arr, |sofar|, b);
    assert after == SortStrings(all) + arr[|all|..];
    assert after[..|all|] == SortStrings(all);
    assert after[..|a|] == after[..|all|][..|a|];
    if shared {
      NothingLonger(sofar, b);
      assert arr[|all|..] == [];
    }
  }

  /** The merge does not fit: the list moves, and the array is filled up with what was appended first. */
  lemma MergeMovesOn(arr: seq<string>, sofar: seq<string>, b: seq<string>, shared: bool, a: seq<string>, capacity: nat,
                     later: seq<seq<string>>, d: seq<string>)
    requires multiset(sofar) == multiset(Chain([a] + later)) && multiset(b) == multiset(d)
    requires |sofar| <= |arr| == capacity && arr[..|sofar|] == sofar && (shared ==> sofar == arr)
    requires |a| <= |arr| && (!shared ==> arr[..|a|] == CallerSees(a, capacity, later))
    requires Fitting(a, capacity, later) == |later| && |AppendNew(sofar, b)| > |arr|
    ensures LeftBehind(arr, ArrayAfter(arr, |sofar|, b), shared, a, capacity, later, d)
    ensures Fitting(a, capacity, later + [d]) == |later|
  {
    hide AppendNew, SortStrings, Chain, CallerSees, Fitting;
    MergePermutes(a, later, sofar, b, d);
    FittingSnoc(a, capacity, later, d);
    CallerSeesNoMore(a, capacity, later, d);
    AppendNewMembers(sofar, b);
    var all := AppendNew(sofar, b);
    assert all[..|arr|][..|sofar|] == sofar;
    assert all[..|arr|][..|a|] == sofar[..|a|] == arr[..|a|];
    if shared {
      assert all[..|arr|] == arr;
    }
  }

  /** The list has moved already: the array is left alone. */
  lemma MergeElsewhere(arr: seq<string>, shared: bool, a: seq<string>, capacity: nat, later: seq<seq<string>>, d: seq<string>)
    requires |a| <= |arr| && (!shared ==> arr[..|a|] == CallerSees(a, capacity, later)) && Fitting(a, capacity, later) < |later|
    ensures LeftBehind(arr, arr, shared, a, capacity, later, d)
    ensures Fitting(a, capacity, later + [d]) == Fitting(a, capacity, later)
  {
    hide AppendNew, SortStrings, CallerSees, Fitting;
    FittingSnoc(a, capacity, later, d);
    CallerSeesNoMore(a, capacity, later, d);
  }

  /** One more member merged, whose list may have been reordered. */
  lemma RestsNext(c: Column, id: string, s: Slice<string>, shared: bool, a: seq<string>, later: seq<seq<string>>,
                   b: seq<string>, d: seq<string>)
    requires Rests(c, id, s, shared, a, later) && multiset(b) == multiset(d)
    ensures var r := MergeHeld(c.heap, c.held[id], b);
            && Rests(Column(r.0, c.held[id := r.1]), id, s, shared, a, later + [d])
            && |a| <= |At(r.0, s.backing)|
            && LeftBehind(At(c.heap, s.backing), At(r.0, s.backing), shared, a, s.backing.Length, later, d)
  {
    hide AppendNew, SortStrings, Chain, Fitting, CallerSees, LeftBehind;
    var sofar, arr := ListOf(c.heap, c.held[id]), At(c.heap, s.backing);
    MergePermutes(a, later, sofar, b, d);
    if c.held[id].Kept? {
      assert arr[..|sofar|] == sofar;
      if |AppendNew(sofar, b)| <= |arr| {
        MergeInPlace(arr, sofar, b, shared, a, s.backing.Length, later, d);
        if shared { NothingLonger(sofar, b); }
      } else {
        MergeMovesOn(arr, sofar, b, shared, a, s.backing.Length, later, d);
      }
      assert LeftBehind(arr, ArrayAfter(arr, |sofar|, b), shared, a, s.backing.Length, later, d);
    } else {
      FittingBound(a, s.backing.Length, later);
      MergeElsewhere(arr, shared, a, s.backing.Length, later, d);
    }
    SeenOf(arr, At(MergeHeld(c.heap, c.held[id], b).0, s.backing), shared, a, s.backing.Length, later, d);
  }

  lemma SeenOf(was: seq<string>, arr: seq<string>, shared: bool, a: seq<string>, capacity: nat, later: seq<seq<string>>, d: seq<string>)
    requires |a| <= |arr| && LeftBehind(was, arr, shared, a, capacity, later, d)
    ensures !shared ==> arr[..|a|] == CallerSees(a, capacity, later + [d])
  {
    hide CallerSees;
  }

  lemma FittingBound(a: seq<string>, capacity: nat, later: seq<seq<string>>)
    ensures Fitting(a, capacity, later) <= |later|
  {
  }

  /** What others do to a shared array is at most to sort it. */
  lemma RestsElsewhere(c: Column, d: Column, id: string, s: Slice<string>, shared: bool, a: seq<string>, later: seq<seq<string>>)
    requires Rests(c, id, s, shared, a, later) && id in d.held && d.held[id] == c.held[id] && s.backing in d.heap
    requires var was, arr := At(c.heap, s.backing), At(d.heap, s.backing); arr == was || (shared && arr == SortStrings(was))
    ensures Rests(d, id, s, shared, a, later)
  {
    hide Chain, SortStrings, Fitting, CallerSees;
    var arr := At(c.heap, s.backing);
    if c.held[id].Kept? && At(d.heap, s.backing) != arr {
      SortKeepsLength(arr);
      assert c.held[id].s.len >= |arr|;
      assert arr[..|arr|] == arr && SortStrings(arr)[..|arr|] == SortStrings(arr);
      assert Shown(d.heap, c.held[id].s) == SortStrings(arr);
      if later != [] {
        ChainIsSorted(a, later);
      }
    }
  }

  // ----- a whole pass -----

  /** Some group that started in the array has merged in place, and so sorted it. */
  ghost predicate Resorted(h: Heap, ids: seq<string>, lists: seq<Slice<string>>, i: nat, x: array<string>)
    requires i <= |ids| == |lists|
  {
    exists p :: 0 <= p < i && lists[p].backing == x && First(ids, p) && Resorts(h, ids, lists, i, p)
  }

  ghost predicate Resorts(h: Heap, ids: seq<string>, lists: seq<Slice<string>>, i: nat, p: nat)
    requires p < |ids| == |lists| && i <= |ids|
  {
    Fitting(Shown(h, lists[p]), lists[p].backing.Length, Later(h, ids, lists, p, i)) > 0
  }

  /** What a shared array holds after the first `i` findings. */
  ghost function Tidied(h: Heap, ids: seq<string>, lists: seq<Slice<string>>, i: nat, x: array<string>): seq<string>
    requires i <= |ids| == |lists|
  {
    if Resorted(h, ids, lists, i, x) then SortStrings(At(h, x)) else At(h, x)
  }

  /** Shared arrays are sorted or as they were; arrays of one finding only are as they were until that finding starts
      a group; and every group rests where it should. */
  ghost predicate Settled(h: Heap, ids: seq<string>, lists: seq<Slice<string>>, i: nat, c: Column)
    requires |ids| == |lists| && i <= |ids|
  {
    && c.heap.Keys == h.Keys
    && (forall id :: id in c.held <==> id in ids[..i])
    && (forall q :: 0 <= q < |lists| ==> AsItIs(h, ids, lists, i, c, q))
    && (forall p :: 0 <= p < i && First(ids, p) ==> GroupRests(h, ids, lists, i, c, p))
  }

  ghost predicate AsItIs(h: Heap, ids: seq<string>, lists: seq<Slice<string>>, i: nat, c: Column, q: nat)
    requires q < |ids| == |lists| && i <= |ids|
  {
    var x := lists[q].backing;
    && |At(c.heap, x)| == |At(h, x)|
    && (Sharers(lists, q) ==> At(c.heap, x) == Tidied(h, ids, lists, i, x))
    && (!Sharers(lists, q) && (q >= i || !First(ids, q)) ==> At(c.heap, x) == At(h, x))
  }

  ghost predicate GroupRests(h: Heap, ids: seq<string>, lists: seq<Slice<string>>, i: nat, c: Column, p: nat)
    requires p < |ids| == |lists| && i <= |ids|
  {
    Rests(c, ids[p], lists[p], Sharers(lists, p), Shown(h, lists[p]), Later(h, ids, lists, p, i))
  }

  lemma SortedTwice(a: seq<string>)
    ensures SortStrings(SortStrings(a)) == SortStrings(a) && |SortStrings(a)| == |a|
  {
    hide SortStrings;
    SortIsCanonical(SortStrings(a), a);
  }

  /** The list of the next finding shows what it showed before, in some order. */
  lemma NextShows(h: Heap, ids: seq<string>, lists: seq<Slice<string>>, i: nat, c: Column)
    requires i < |ids| == |lists| && AsItIs(h, ids, lists, i, c, i) && Covers(h, lists) && SharersFill(lists)
    ensures multiset(Shown(c.heap, lists[i])) == multiset(Shown(h, lists[i]))
    ensures if Sharers(lists, i) then Shown(c.heap, lists[i]) == At(c.heap, lists[i].backing)
            else First(ids, i) ==> Shown(c.heap, lists[i]) == Shown(h, lists[i])
  {
    hide SortStrings, Resorted, First;
    var arr, was := At(c.heap, lists[i].backing), At(h, lists[i].backing);
    if Sharers(lists, i) {
      assert lists[i].len >= |arr| == |was|;
      assert arr[..|arr|] == arr && was[..|was|] == was;
    }
  }

  /** A group with no more members than before sorts no more than before. */
  lemma NoMoreLater(h: Heap, ids: seq<string>, lists: seq<Slice<string>>, i: nat, p: nat)
    requires p < i < |ids| == |lists| && ids[i] != ids[p]
    ensures Later(h, ids, lists, p, i + 1) == Later(h, ids, lists, p, i)
    ensures Resorts(h, ids, lists, i + 1, p) == Resorts(h, ids, lists, i, p)
  {
    hide Fitting, Shown;
    LaterSkips(h, ids, lists, p, i);
    assert Later(h, ids, lists, p, i) + [] == Later(h, ids, lists, p, i);
  }

  lemma NewResortsNothing(h: Heap, ids: seq<string>, lists: seq<Slice<string>>, i: nat, x: array<string>)
    requires i < |ids| == |lists| && First(ids, i)
    ensures Resorted(h, ids, lists, i + 1, x) == Resorted(h, ids, lists, i, x)
  {
    hide Shown, Fitting;
    assert !Resorts(h, ids, lists, i + 1, i) by { assert Later(h, ids, lists, i, i + 1) == []; FittingBound(Shown(h, lists[i]), lists[i].backing.Length, []); }
    hide Resorts;
    forall p | 0 <= p < i && First(ids, p) ensures Resorts(h, ids, lists, i + 1, p) == Resorts(h, ids, lists, i, p) {
      assert ids[p] in ids[..i];
      NoMoreLater(h, ids, lists, i, p);
    }
    hide First;
    if Resorted(h, ids, lists, i + 1, x) {
      var p :| 0 <= p < i + 1 && lists[p].backing == x && First(ids, p) && Resorts(h, ids, lists, i + 1, p);
      assert p < i && Resorts(h, ids, lists, i, p);
    }
    if Resorted(h, ids, lists, i, x) {
      var p :| 0 <= p < i && lists[p].backing == x && First(ids, p) && Resorts(h, ids, lists, i, p);
      assert Resorts(h, ids, lists, i + 1, p);
    }
  }

  lemma SettledNew(h: Heap, ids: seq<string>, lists: seq<Slice<string>>, i: nat, c: Column)
    requires i < |ids| == |lists| && Settled(h, ids, lists, i, c) && Covers(h, lists) && SharersFill(lists) && First(ids, i)
    ensures Settled(h, ids, lists, i + 1, Look(c, ids[i], lists[i]))
  {
    hide Later, Rests, Resorted, Sharers, SharersFill, SortStrings, Shown;
    var d := Look(c, ids[i], lists[i]);
    assert d == c.(held := c.held[ids[i] := Kept(lists[i])]);
    assert ids[..i + 1] == ids[..i] + [ids[i]];
    NextShows(h, ids, lists, i, c);
    var n := i + 1;
    forall q | 0 <= q < |lists| ensures AsItIs(h, ids, lists, n, d, q) {
      assert AsItIs(h, ids, lists, i, c, q);
      NewResortsNothing(h, ids, lists, i, lists[q].backing);
    }
    forall p | 0 <= p < i + 1 && First(ids, p) ensures GroupRests(h, ids, lists, i + 1, d, p) {
      if p == i {
        assert Later(h, ids, lists, i, i + 1) == [] by { LaterOfNone(h, ids, lists, i); }
        RestsAtFirst(d, ids[i], lists[i], Sharers(lists, i), Shown(h, lists[i]));
      } else {
        assert ids[p] in ids[..i] && GroupRests(h, ids, lists, i, c, p);
        RestsMeans(c, ids[p], lists[p], Sharers(lists, p), Shown(h, lists[p]), Later(h, ids, lists, p, i));
        RestsElsewhere(c, d, ids[p], lists[p], Sharers(lists, p), Shown(h, lists[p]), Later(h, ids, lists, p, i));
        NoMoreLater(h, ids, lists, i, p);
      }
    }
  }

  lemma LaterOfNone(h: Heap, ids: seq<string>, lists: seq<Slice<string>>, p: nat)
    requires p < |ids| == |lists|
    ensures Later(h, ids, lists, p, p + 1) == []
  {
  }

  /** Whether an array gets sorted by one more merge into the group of place `f`. */
  lemma ResortedBy(h: Heap, ids: seq<string>, lists: seq<Slice<string>>, i: nat, f: nat, x: array<string>)
    requires f < i < |ids| == |lists| && First(ids, f) && ids[f] == ids[i]
    ensures var later, n := Later(h, ids, lists, f, i), lists[f].backing.Length;
            Resorted(h, ids, lists, i + 1, x) <==>
              Resorted(h, ids, lists, i, x)
              || (x == lists[f].backing && Fitting(Shown(h, lists[f]), n, later + [Shown(h, lists[i])]) > |later|)
  {
    hide Shown, Fitting, First;
    var a, later, d, n := Shown(h, lists[f]), Later(h, ids, lists, f, i), Shown(h, lists[i]), lists[f].backing.Length;
    LaterSkips(h, ids, lists, f, i);
    FittingSnoc(a, n, later, d);
    FittingBound(a, n, later);
    assert Resorts(h, ids, lists, i + 1, f) <==> Resorts(h, ids, lists, i, f) || Fitting(a, n, later + [d]) > |later|;
    assert First(ids, f) && !First(ids, i) by { RepeatIsNotFirst(ids, f, i); }
    forall p | 0 <= p < i && First(ids, p) && p != f ensures Resorts(h, ids, lists, i + 1, p) == Resorts(h, ids, lists, i, p) {
      OneFirst(ids, p, f);
      NoMoreLater(h, ids, lists, i, p);
    }
    hide Resorts;
    if Resorted(h, ids, lists, i + 1, x) {
      var p :| 0 <= p < i + 1 && lists[p].backing == x && First(ids, p) && Resorts(h, ids, lists, i + 1, p);
      assert p < i;
      assert p != f ==> Resorts(h, ids, lists, i, p);
    }
    if Resorted(h, ids, lists, i, x) {
      var p :| 0 <= p < i && lists[p].backing == x && First(ids, p) && Resorts(h, ids, lists, i, p);
      assert Resorts(h, ids, lists, i + 1, p);
    }
    if x == lists[f].backing && Fitting(a, n, later + [d]) > |later| {
      assert Resorts(h, ids, lists, i + 1, f);
    }
  }

  lemma RepeatIsNotFirst(ids: seq<string>, f: nat, i: nat)
    requires f < i < |ids| && ids[f] == ids[i]
    ensures !First(ids, i)
  {
    assert ids[..i][f] == ids[i];
  }

  /** Looking at a later member of a group: what becomes of the group, and of its array. */
  lemma MergeStep(h: Heap, ids: seq<string>, lists: seq<Slice<string>>, i: nat, c: Column, f: nat)
    requires f < i < |ids| == |lists| && Settled(h, ids, lists, i, c) && Covers(h, lists) && SharersFill(lists)
    requires First(ids, f) && ids[f] == ids[i]
    ensures var d, x, a := Look(c, ids[i], lists[i]), lists[f].backing, Shown(h, lists[f]);
            && d.heap.Keys == c.heap.Keys && GroupRests(h, ids, lists, i + 1, d, f)
            && (forall y :: y != x ==> At(d.heap, y) == At(c.heap, y))
            && |a| <= |At(d.heap, x)| == x.Length
            && LeftBehind(At(c.heap, x), At(d.heap, x), Sharers(lists, f), a, x.Length, Later(h, ids, lists, f, i), Shown(h, lists[i]))
            && (forall y :: y != ids[i] ==> (y in d.held <==> y in c.held) && (y in c.held ==> d.held[y] == c.held[y]))
            && ids[i] in d.held
  {
    hide Later, MergeHeld, Rests, LeftBehind, Shown, At, Sharers, First, AsItIs;
    var a, later := Shown(h, lists[f]), Later(h, ids, lists, f, i);
    assert GroupRests(h, ids, lists, i, c, f) && AsItIs(h, ids, lists, i, c, i);
    RestsMeans(c, ids[f], lists[f], Sharers(lists, f), a, later);
    NextShows(h, ids, lists, i, c);
    RestsNext(c, ids[f], lists[f], Sharers(lists, f), a, later, Shown(c.heap, lists[i]), Shown(h, lists[i]));
    LaterSkips(h, ids, lists, f, i);
    LookTouches(c, ids[i], lists[i]);
    LookKeeps(c, ids[i], lists[i]);
    RestsMeans(Look(c, ids[i], lists[i]), ids[f], lists[f], Sharers(lists, f), a, later + [Shown(h, lists[i])]);
  }

  lemma SettledMerge(h: Heap, ids: seq<string>, lists: seq<Slice<string>>, i: nat, c: Column)
    requires i < |ids| == |lists| && Settled(h, ids, lists, i, c) && Covers(h, lists) && SharersFill(lists) && !First(ids, i)
    ensures Settled(h, ids, lists, i + 1, Look(c, ids[i], lists[i]))
  {
    hide Look, GroupRests, AsItIs, At, Sharers, LeftBehind, Shown, Later;
    var f := FirstOf(ids[..i], ids[i]);
    assert ids[..f] == ids[..i][..f] && First(ids, f);
    assert ids[..i + 1] == ids[..i] + [ids[i]];
    var d := Look(c, ids[i], lists[i]);
    MergeStep(h, ids, lists, i, c, f);
    forall p | 0 <= p < i + 1 && First(ids, p) ensures GroupRests(h, ids, lists, i + 1, d, p) {
      if p != f {
        OneFirst(ids, p, f);
        GroupElsewhere(h, ids, lists, i, c, d, p, f);
      }
    }
    var n := i + 1;
    forall q | 0 <= q < |lists| ensures AsItIs(h, ids, lists, n, d, q) {
      ArrayNext(h, ids, lists, i, c, d, f, q);
    }
  }

  lemma ArrayNext(h: Heap, ids: seq<string>, lists: seq<Slice<string>>, i: nat, c: Column, d: Column, f: nat, q: nat)
    requires f < i < |ids| == |lists| && q < |ids| && AsItIs(h, ids, lists, i, c, q) && Covers(h, lists)
    requires First(ids, f) && ids[f] == ids[i]
    requires var x, a := lists[f].backing, Shown(h, lists[f]);
             && (forall y :: y != x ==> At(d.heap, y) == At(c.heap, y)) && |a| <= |At(d.heap, x)| == x.Length
             && LeftBehind(At(c.heap, x), At(d.heap, x), Sharers(lists, f), a, x.Length, Later(h, ids, lists, f, i), Shown(h, lists[i]))
    ensures AsItIs(h, ids, lists, i + 1, d, q)
  {
    hide First, Shown, Later, Fitting, SortStrings, Resorted, CallerSees;
    ResortedBy(h, ids, lists, i, f, lists[q].backing);
    SortedTwice(At(h, lists[q].backing));
    if lists[q].backing == lists[f].backing && q != f {
      assert Sharers(lists, f) && Sharers(lists, q);
    }
    RepeatIsNotFirst(ids, f, i);
  }

  lemma GroupElsewhere(h: Heap, ids: seq<string>, lists: seq<Slice<string>>, i: nat, c: Column, d: Column, p: nat, f: nat)
    requires p < i < |ids| == |lists| && f < i && p != f && ids[p] != ids[i] && GroupRests(h, ids, lists, i, c, p)
    requires d.heap.Keys == c.heap.Keys && (ids[p] in c.held ==> ids[p] in d.held && d.held[ids[p]] == c.held[ids[p]])
    requires forall a :: a != lists[f].backing ==> At(d.heap, a) == At(c.heap, a)
    requires |Shown(h, lists[f])| <= |At(d.heap, lists[f].backing)|
    requires LeftBehind(At(c.heap, lists[f].backing), At(d.heap, lists[f].backing), Sharers(lists, f), Shown(h, lists[f]),
                        lists[f].backing.Length, Later(h, ids, lists, f, i), Shown(h, lists[i]))
    ensures GroupRests(h, ids, lists, i + 1, d, p)
  {
    hide Rests, SortStrings, Shown, Later, Fitting, CallerSees;
    if lists[p].backing == lists[f].backing {
      assert Sharers(lists, p) && Sharers(lists, f);
    }
    RestsMeans(c, ids[p], lists[p], Sharers(lists, p), Shown(h, lists[p]), Later(h, ids, lists, p, i));
    RestsElsewhere(c, d, ids[p], lists[p], Sharers(lists, p), Shown(h, lists[p]), Later(h, ids, lists, p, i));
    NoMoreLater(h, ids, lists, i, p);
  }

  lemma {:induction false} SettledPrefix(h: Heap, ids: seq<string>, lists: seq<Slice<string>>, i: nat)
    requires i <= |ids| == |lists| && Covers(h, lists) && SharersFill(lists)
    ensures Settled(h, ids, lists, i, Pass(h, ids[..i], lists[..i]))
  {
    hide Settled, Look;
    if i == 0 {
      NothingSettled(h, ids, lists);
    } else {
      SettledPrefix(h, ids, lists, i - 1);
      PassSnoc(h, ids, lists, i - 1);
      if First(ids, i - 1) {
        SettledNew(h, ids, lists, i - 1, Pass(h, ids[..i - 1], lists[..i - 1]));
      } else {
        SettledMerge(h, ids, lists, i - 1, Pass(h, ids[..i - 1], lists[..i - 1]));
      }
    }
  }

  lemma NothingSettled(h: Heap, ids: seq<string>, lists: seq<Slice<string>>)
    requires |ids| == |lists|
    ensures Settled(h, ids, lists, 0, Column(h, map[]))
  {
  }

  // ----- what a pass leaves -----

  /** Some group whose first list lies in the array has a second member that lists nothing new: a caller can tell. */
  ghost predicate GetsSorted(h: Heap, ids: seq<string>, lists: seq<Slice<string>>, x: array<string>)
    requires |ids| == |lists|
  {
    exists p :: 0 <= p < |ids| && lists[p].backing == x && First(ids, p) && SecondIsNothingNew(h, ids, lists, p)
  }

  ghost predicate SecondIsNothingNew(h: Heap, ids: seq<string>, lists: seq<Slice<string>>, p: nat)
    requires p < |ids| == |lists|
  {
    var later := Later(h, ids, lists, p, |ids|);
    later != [] && forall y :: y in later[0] ==> y in Shown(h, lists[p])
  }

  lemma NoNewcomers(a: seq<string>, b: seq<string>)
    ensures |AppendNew(a, b)| <= |a| <==> forall y :: y in b ==> y in a
  {
    AppendNewMembers(a, b);
    if |AppendNew(a, b)| <= |a| {
      NothingLonger(a, b);
    } else {
      hide AppendNew;
      var y := AppendNew(a, b)[|a|];
      NewcomerIsNew(a, b);
    }
  }

  lemma {:induction false} NewcomerIsNew(a: seq<string>, b: seq<string>)
    requires |AppendNew(a, b)| > |a|
    ensures exists y :: y in b && y !in a
  {
    if forall y :: y in b ==> y in a {
      AllListed(a, b);
    }
  }

  lemma {:induction false} AllListed(a: seq<string>, b: seq<string>)
    requires forall y :: y in b ==> y in a
    ensures AppendNew(a, b) == a
  {
    if b == [] {
      NothingNew(a);
    } else {
      SplitLast(b);
      AllListed(a, b[..|b| - 1]);
      AppendNewSnoc(a, b[..|b| - 1], b[|b| - 1]);
    }
  }

  lemma {:induction false} FirstFits(a: seq<string>, capacity: nat, later: seq<seq<string>>)
    ensures Fitting(a, capacity, later) > 0 <==> later != [] && |AppendNew(a, later[0])| <= capacity
  {
    hide AppendNew;
    if later != [] {
      var n := |later| - 1;
      FirstFits(a, capacity, later[..n]);
      if n == 0 {
        assert later[..0] == [] && Flat(later) == [] + later[0] == later[0];
      }
    }
  }

  lemma ResortsWhen(h: Heap, ids: seq<string>, lists: seq<Slice<string>>, p: nat)
    requires p < |ids| == |lists| && |Shown(h, lists[p])| == lists[p].backing.Length
    ensures Resorts(h, ids, lists, |ids|, p) <==> SecondIsNothingNew(h, ids, lists, p)
  {
    hide Later, Shown, AppendNew, Fitting;
    var a, later := Shown(h, lists[p]), Later(h, ids, lists, p, |ids|);
    FirstFits(a, lists[p].backing.Length, later);
    if later != [] {
      NoNewcomers(a, later[0]);
    }
  }

  lemma SharersShowAll(h: Heap, lists: seq<Slice<string>>, q: nat)
    requires q < |lists| && Covers(h, lists) && SharersFill(lists) && Sharers(lists, q)
    ensures Shown(h, lists[q]) == At(h, lists[q].backing) && |Shown(h, lists[q])| == lists[q].backing.Length
  {
    var arr := At(h, lists[q].backing);
    assert lists[q].len >= lists[q].backing.Length;
    assert arr[..|arr|] == arr;
  }

  lemma SortedBySomeone(h: Heap, ids: seq<string>, lists: seq<Slice<string>>, q: nat)
    requires q < |ids| == |lists| && Covers(h, lists) && SharersFill(lists) && Sharers(lists, q)
    ensures Resorted(h, ids, lists, |ids|, lists[q].backing) <==> GetsSorted(h, ids, lists, lists[q].backing)
  {
    hide Shown, Resorts, SecondIsNothingNew, First, SharersFill, Covers;
    var x := lists[q].backing;
    forall p | 0 <= p < |ids| && lists[p].backing == x
      ensures Resorts(h, ids, lists, |ids|, p) <==> SecondIsNothingNew(h, ids, lists, p) {
      assert Sharers(lists, p);
      SharersShowAll(h, lists, p);
      ResortsWhen(h, ids, lists, p);
    }
  }

  /** What a caller sees in its list after the pass. A list in a shared array is as it was or, if some group sorts the
      array, sorted; one in an array of its own is what the group it starts leaves of it, or as it was. */
  ghost function AfterPass(h: Heap, ids: seq<string>, lists: seq<Slice<string>>, q: nat): seq<string>
    requires q < |ids| == |lists|
  {
    var a := Shown(h, lists[q]);
    if Sharers(lists, q) then if GetsSorted(h, ids, lists, lists[q].backing) then SortStrings(a) else a
    else if First(ids, q) then CallerSees(a, lists[q].backing.Length, Later(h, ids, lists, q, |ids|)) else a
  }

  /** The callers' lists after a pass over lists of which those that share an array fill it. */
  lemma CallersAreLeftWith(h: Heap, ids: seq<string>, lists: seq<Slice<string>>, q: nat)
    requires q < |ids| == |lists| && Covers(h, lists) && SharersFill(lists)
    ensures Shown(Pass(h, ids, lists).heap, lists[q]) == AfterPass(h, ids, lists, q)
  {
    hide Later, CallerSees, Fitting, SortStrings, Rests, Resorted, GetsSorted;
    SettledPrefix(h, ids, lists, |ids|);
    assert ids[..|ids|] == ids && lists[..|ids|] == lists;
    var c := Pass(h, ids, lists);
    hide Pass;
    assert AsItIs(h, ids, lists, |ids|, c, q);
    if Sharers(lists, q) {
      SharersShowAll(h, lists, q);
      SortedBySomeone(h, ids, lists, q);
      var arr := At(c.heap, lists[q].backing);
      assert arr[..|arr|] == arr;
    } else if First(ids, q) {
      assert GroupRests(h, ids, lists, |ids|, c, q);
      RestsAlone(c, ids[q], lists[q], Shown(h, lists[q]), Later(h, ids, lists, q, |ids|));
      assert |Shown(c.heap, lists[q])| == |Shown(h, lists[q])|;
    }
  }

  lemma RestsAlone(c: Column, id: string, s: Slice<string>, a: seq<string>, later: seq<seq<string>>)
    requires Rests(c, id, s, false, a, later)
    ensures |a| <= |At(c.heap, s.backing)| && At(c.heap, s.backing)[..|a|] == CallerSees(a, s.backing.Length, later)
  {
  }

  /** What is left for a group: the merged list of its members as they were if it has several, else what the caller
      of its one member sees. */
  lemma GroupsAreLeftWith(h: Heap, ids: seq<string>, lists: seq<Slice<string>>, p: nat)
    requires p < |ids| == |lists| && First(ids, p) && Covers(h, lists) && SharersFill(lists)
    ensures var c, later := Pass(h, ids, lists), Later(h, ids, lists, p, |ids|);
            && ids[p] in c.held
            && ListOf(c.heap, c.held[ids[p]]) ==
               if later != [] then Chain([Shown(h, lists[p])] + later) else AfterPass(h, ids, lists, p)
  {
    hide Later, CallerSees, Fitting, SortStrings, AfterPass, AsItIs, Sharers, Resorted, GetsSorted, Chain;
    SettledPrefix(h, ids, lists, |ids|);
    assert ids[..|ids|] == ids && lists[..|ids|] == lists;
    assert GroupRests(h, ids, lists, |ids|, Pass(h, ids, lists), p);
    CallersAreLeftWith(h, ids, lists, p);
    hide Pass;
  }

  lemma AloneInItsArray(h: Heap, ids: seq<string>, lists: seq<Slice<string>>, p: nat)
    requires p < |ids| == |lists| && !Sharers(lists, p) && Later(h, ids, lists, p, |ids|) == []
    ensures !GetsSorted(h, ids, lists, lists[p].backing)
  {
    hide Later, Shown, First;
  }

  lemma SortChangesNothing(a: seq<string>)
    ensures SortStrings(a) == a <==> Sorted(StrLeq, a)
  {
    hide StrLeq, SortBy;
    StrOrder();
    SortBySorted(StrLeq, a);
    if Sorted(StrLeq, a) {
      SortOfSorted(StrLeq, a);
    }
  }

  /** Lists that share an array are sorted, as all literals of the signatures are. */
  ghost predicate SharedSorted(h: Heap, lists: seq<Slice<string>>) {
    forall q :: 0 <= q < |lists| && Sharers(lists, q) ==> Sorted(StrLeq, Shown(h, lists[q]))
  }

  /** A group of one whose array gets sorted has a sorted list. */
  ghost predicate KeepsOrder(h: Heap, ids: seq<string>, lists: seq<Slice<string>>, p: nat)
    requires p < |ids| == |lists|
  {
    Later(h, ids, lists, p, |ids|) == [] && GetsSorted(h, ids, lists, lists[p].backing) ==> Sorted(StrLeq, Shown(h, lists[p]))
  }

  ghost predicate OrderKept(h: Heap, ids: seq<string>, lists: seq<Slice<string>>)
    requires |ids| == |lists|
  {
    forall p :: 0 <= p < |ids| && First(ids, p) ==> KeepsOrder(h, ids, lists, p)
  }

  /** A group is left the merged list of its members as they were exactly when it has several, or no group sorts the
      array under it, or it was sorted already. */
  lemma GroupKeepsItsListExactlyWhen(h: Heap, ids: seq<string>, lists: seq<Slice<string>>, p: nat)
    requires p < |ids| == |lists| && First(ids, p) && Covers(h, lists) && SharersFill(lists)
    ensures var c := Pass(h, ids, lists);
            && ids[p] in c.held
            && (ListOf(c.heap, c.held[ids[p]]) == Chain([Shown(h, lists[p])] + Later(h, ids, lists, p, |ids|))
                <==> KeepsOrder(h, ids, lists, p))
  {
    hide Later, First, Covers, Shown, Pass, SharersFill;
    var a := Shown(h, lists[p]);
    GroupsAreLeftWith(h, ids, lists, p);
    if Later(h, ids, lists, p, |ids|) == [] {
      assert [a] + [] == [a];
      SortChangesNothing(a);
      if !Sharers(lists, p) {
        AloneInItsArray(h, ids, lists, p);
        assert CallerSees(a, lists[p].backing.Length, []) == a by { FittingBound(a, lists[p].backing.Length, []); }
      }
    }
  }

  /** Sorted lists in full arrays are safe to share: every group keeps its order, and no shared list changes. */
  lemma SortedListsAreSafe(h: Heap, ids: seq<string>, lists: seq<Slice<string>>)
    requires |ids| == |lists| && Covers(h, lists) && SharersFill(lists) && SharedSorted(h, lists)
    ensures OrderKept(h, ids, lists)
    ensures forall q :: 0 <= q < |lists| && Sharers(lists, q) ==> AfterPass(h, ids, lists, q) == Shown(h, lists[q])
  {
    hide Later, First, Shown, GetsSorted, Sharers;
    forall q | 0 <= q < |lists| && Sharers(lists, q) ensures AfterPass(h, ids, lists, q) == Shown(h, lists[q]) {
      SortChangesNothing(Shown(h, lists[q]));
    }
    forall p | 0 <= p < |ids| && !Sharers(lists, p) && Later(h, ids, lists, p, |ids|) == []
      ensures !GetsSorted(h, ids, lists, lists[p].backing) {
      AloneInItsArray(h, ids, lists, p);
    }
  }
}
