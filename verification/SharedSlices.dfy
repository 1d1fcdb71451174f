/** What the shallow copy in internal/correlate/correlate.go does to its caller. The copy of the first finding of a
    group shares the arrays of the caller's CVE and CWE lists, and every later member of the group is merged into
    them in place (`mergeUnique`, internal/finding/finding.go). One column, CVE or CWE, is followed here over the
    contents of the callers' arrays. */
module SharedSlices {
  import opened Text
  import opened Ordering
  import opened Findings
  import opened Slices
  import opened FindingRecords

  // ----- one column of lists, whatever shares whatever -----

  /** The contents of the callers' arrays. */
  type Heap = map<array<string>, seq<string>>

  /** Where the list of one group lies: still in an array of a caller, or moved to one of its own. */
  datatype Held = Kept(s: Slice<string>) | Moved(list: seq<string>)

  datatype Column = Column(heap: Heap, held: map<string, Held>)

  ghost function At(h: Heap, a: array<string>): seq<string> {
    if a in h then h[a] else []
  }

  ghost function Shown(h: Heap, s: Slice<string>): seq<string> {
    var arr := At(h, s.backing);
    if s.len <= |arr| then arr[..s.len] else arr
  }

  ghost function ListOf(h: Heap, l: Held): seq<string> {
    match l
    case Kept(s) => Shown(h, s)
    case Moved(list) => list
  }

  /** `b` merged into the list `l`. */
  ghost function MergeHeld(h: Heap, l: Held, b: seq<string>): (Heap, Held) {
    match l
    case Moved(list) => (h, Moved(MergeUnique(list, b)))
    case Kept(s) =>
      var a, arr := Shown(h, s), At(h, s.backing);
      var all := AppendNew(a, b);
      (h[s.backing := ArrayAfter(arr, |a|, b)],
       if |all| <= |arr| then Kept(Slice(s.backing, |all|)) else Moved(MergeUnique(a, b)))
  }

  /** One finding looked at: its list is kept when its identity is new, else merged into that of its group. */
  ghost function Look(c: Column, id: string, s: Slice<string>): Column {
    if id !in c.held then c.(held := c.held[id := Kept(s)])
    else
      var r := MergeHeld(c.heap, c.held[id], Shown(c.heap, s));
      Column(r.0, c.held[id := r.1])
  }

  ghost function Pass(h: Heap, ids: seq<string>, lists: seq<Slice<string>>): Column
    requires |ids| == |lists|
  {
    if ids == [] then Column(h, map[])
    else
      var n := |ids| - 1;
      Look(Pass(h, ids[..n], lists[..n]), ids[n], lists[n])
  }

  lemma PassSnoc(h: Heap, ids: seq<string>, lists: seq<Slice<string>>, i: nat)
    requires |ids| == |lists| && i < |ids|
    ensures Pass(h, ids[..i + 1], lists[..i + 1]) == Look(Pass(h, ids[..i], lists[..i]), ids[i], lists[i])
  {
    hide Look;
    assert ids[..i + 1][..i] == ids[..i] && lists[..i + 1][..i] == lists[..i];
  }

  // ----- one group on its own -----

  /** What is left of the lists of a group when each is merged into the ones before. */
  function Chain(ls: seq<seq<string>>): seq<string>
    requires ls != []
  {
    var n := |ls| - 1;
    if n == 0 then ls[0] else MergeUnique(Chain(ls[..n]), ls[n])
  }

  function Flat(ls: seq<seq<string>>): seq<string> {
    if ls == [] then [] else Flat(ls[..|ls| - 1]) + ls[|ls| - 1]
  }

  /** How many of the later lists are merged before the array of the first, of the given capacity, is full. */
  function Fitting(a: seq<string>, capacity: nat, later: seq<seq<string>>): (k: nat)
    ensures k <= |later|
  {
    if later == [] then 0
    else
      var n := |later| - 1;
      var k := Fitting(a, capacity, later[..n]);
      if k == n && |AppendNew(a, Flat(later))| <= capacity then n + 1 else k
  }

  /** The list the caller is left with: as the last merge that fitted sorted it, cut to the old length. */
  function CallerSees(a: seq<string>, capacity: nat, later: seq<seq<string>>): (r: seq<string>)
    ensures |r| == |a|
  {
    var k := Fitting(a, capacity, later);
    var all := AppendNew(a, Flat(later[..k]));
    AppendNewMembers(a, Flat(later[..k]));
    SortKeepsLength(all);
    if k == 0 then a else SortStrings(all)[..|a|]
  }

  ghost predicate AfterAll(a: seq<string>, more: seq<string>) {
    forall x, y :: x in a && y in more ==> StrLeq(x, y)
  }

  /** The caller's list survives the correlation of its group exactly when the first merge already had to move
      to a larger array, or the list was sorted and everything merged in place comes after it. */
  lemma CallerKeepsItsListExactlyWhen(a: seq<string>, capacity: nat, later: seq<seq<string>>)
    ensures var k := Fitting(a, capacity, later);
            CallerSees(a, capacity, later) == a <==>
            || k == 0
            || (Sorted(StrLeq, a) && AfterAll(a, AppendNew(a, Flat(later[..k]))[|a|..]))
  {
    hide StrLeq, AppendNew, SortBy, Fitting;
    var k := Fitting(a, capacity, later);
    var all := AppendNew(a, Flat(later[..k]));
    AppendNewMembers(a, Flat(later[..k]));
    var n := |a|;
    var sorted := SortStrings(all);
    SortKeepsLength(all);
    StrOrder();
    SortBySorted(StrLeq, all);
    if k > 0 {
      if sorted[..n] == a {
        PrefixIsFirst(sorted, all, n);
      }
      if Sorted(StrLeq, a) && AfterAll(a, all[n..]) {
        SortedThenRest(a, all[n..]);
        assert all == a + all[n..];
      }
    }
  }

  lemma PrefixIsFirst(sorted: seq<string>, all: seq<string>, n: nat)
    requires Sorted(StrLeq, sorted) && multiset(sorted) == multiset(all) && n <= |all| == |sorted|
    requires sorted[..n] == all[..n]
    ensures Sorted(StrLeq, all[..n]) && AfterAll(all[..n], all[n..])
  {
    hide StrLeq;
    var p, x, y := sorted[..n], sorted[n..], all[n..];
    assert sorted == p + x && all == p + y;
    assert multiset(p + x) == multiset(p) + multiset(x) && multiset(p + y) == multiset(p) + multiset(y);
    assert multiset(x) == multiset(y) by {
      forall z ensures multiset(x)[z] == multiset(y)[z] {
        assert multiset(p + x)[z] == multiset(p + y)[z];
      }
    }
    SameElements(sorted[n..], all[n..]);
    forall x, y | x in all[..n] && y in all[n..] ensures StrLeq(x, y) {
      assert y in sorted[n..];
      var i :| 0 <= i < n && sorted[..n][i] == x;
      var j :| 0 <= j < |sorted[n..]| && sorted[n..][j] == y;
      assert StrLeq(sorted[i], sorted[n + j]);
    }
    forall i, j | 0 <= i < j < n ensures StrLeq(all[..n][i], all[..n][j]) {
      assert sorted[..n][i] == sorted[i] && sorted[..n][j] == sorted[j];
    }
  }

  lemma SortedThenRest(a: seq<string>, more: seq<string>)
    requires Sorted(StrLeq, a) && AfterAll(a, more)
    ensures SortStrings(a + more)[..|a|] == a
  {
    hide StrLeq, SortBy;
    var s := SortBy(StrLeq, more);
    StrOrder();
    SortBySorted(StrLeq, more);
    SortBySorted(StrLeq, a + more);
    SameElements(s, more);
    forall i, j | 0 <= i < j < |a + s| ensures StrLeq((a + s)[i], (a + s)[j]) {
      if i < |a| <= j {
        assert a[i] in a && s[j - |a|] in s;
      }
    }
    assert multiset(a + s) == multiset(a + more);
    SortedUnique(StrLeq, SortBy(StrLeq, a + more), a + s);
  }

  // ----- a chain of merges is one append and one sort -----

  lemma {:induction false} AppendNewConcat(a: seq<string>, u: seq<string>, b: seq<string>)
    ensures AppendNew(a, u + b) == AppendNew(AppendNew(a, u), b)
  {
    if b == [] {
      assert u + b == u;
      NothingNew(AppendNew(a, u));
    } else {
      var n := |b| - 1;
      SplitLast(b);
      ConcatAssociative(u, b[..n], [b[n]]);
      AppendNewConcat(a, u, b[..n]);
      AppendNewSnoc(a, u + b[..n], b[n]);
      AppendNewSnoc(AppendNew(a, u), b[..n], b[n]);
    }
  }

  lemma {:induction false} AppendNewPermutes(a: seq<string>, c: seq<string>, b: seq<string>)
    requires multiset(a) == multiset(c)
    ensures multiset(AppendNew(a, b)) == multiset(AppendNew(c, b))
  {
    if b == [] {
      NothingNew(a);
      NothingNew(c);
    } else {
      var n := |b| - 1;
      SplitLast(b);
      AppendNewPermutes(a, c, b[..n]);
      AppendNewSnoc(a, b[..n], b[n]);
      AppendNewSnoc(c, b[..n], b[n]);
      SameElements(AppendNew(a, b[..n]), AppendNew(c, b[..n]));
    }
  }

  lemma SortIsCanonical(a: seq<string>, b: seq<string>)
    requires multiset(a) == multiset(b)
    ensures SortStrings(a) == SortStrings(b) && |a| == |b|
  {
    hide StrLeq, SortBy;
    StrOrder();
    SortBySorted(StrLeq, a);
    SortBySorted(StrLeq, b);
    assert multiset(SortStrings(a)) == multiset(SortStrings(b));
    SortedUnique(StrLeq, SortStrings(a), SortStrings(b));
    assert |multiset(a)| == |a| && |multiset(b)| == |b|;
  }

  /** Merging one more list into an already merged and sorted one. */
  lemma OneMoreMerge(a: seq<string>, u: seq<string>, b: seq<string>, sofar: seq<string>)
    requires multiset(sofar) == multiset(AppendNew(a, u))
    ensures MergeUnique(sofar, b) == SortStrings(AppendNew(a, u + b))
    ensures |AppendNew(sofar, b)| == |AppendNew(a, u + b)|
  {
    hide SortStrings, AppendNew;
    AppendNewConcat(a, u, b);
    AppendNewPermutes(sofar, AppendNew(a, u), b);
    SortIsCanonical(AppendNew(sofar, b), AppendNew(a, u + b));
  }

  lemma FlatSnoc(ls: seq<seq<string>>, b: seq<string>)
    ensures Flat(ls + [b]) == Flat(ls) + b
  {
    assert (ls + [b])[..|ls|] == ls;
  }

  lemma ChainSnoc(ls: seq<seq<string>>, b: seq<string>)
    requires ls != []
    ensures Chain(ls + [b]) == MergeUnique(Chain(ls), b)
  {
    hide MergeUnique;
    assert (ls + [b])[..|ls|] == ls;
  }

  lemma {:induction false} ChainIsOneSort(a: seq<string>, later: seq<seq<string>>)
    ensures multiset(Chain([a] + later)) == multiset(AppendNew(a, Flat(later)))
    ensures later != [] ==> Chain([a] + later) == SortStrings(AppendNew(a, Flat(later)))
  {
    hide AppendNew, SortBy;
    if later == [] {
      NothingNew(a);
      assert [a] + later == [a];
    } else {
      var n := |later| - 1;
      SplitLast(later);
      ConcatAssociative([a], later[..n], [later[n]]);
      ChainIsOneSort(a, later[..n]);
      ChainSnoc([a] + later[..n], later[n]);
      FlatSnoc(later[..n], later[n]);
      OneMoreMerge(a, Flat(later[..n]), later[n], Chain([a] + later[..n]));
    }
  }

  lemma ChainKeepsLength(a: seq<string>, later: seq<seq<string>>)
    ensures |a| <= |Chain([a] + later)| == |AppendNew(a, Flat(later))|
  {
    hide AppendNew, Chain;
    ChainIsOneSort(a, later);
    AppendNewMembers(a, Flat(later));
    assert |multiset(Chain([a] + later))| == |Chain([a] + later)|;
    assert |multiset(AppendNew(a, Flat(later)))| == |AppendNew(a, Flat(later))|;
  }

  // ----- what the caller sees as the group goes on -----

  lemma FittingSnoc(a: seq<string>, capacity: nat, later: seq<seq<string>>, b: seq<string>)
    ensures var k := Fitting(a, capacity, later);
            Fitting(a, capacity, later + [b])
            == if k == |later| && |AppendNew(a, Flat(later + [b]))| <= capacity then k + 1 else k
  {
    assert (later + [b])[..|later|] == later;
  }

  lemma CallerSeesNoMore(a: seq<string>, capacity: nat, later: seq<seq<string>>, b: seq<string>)
    requires Fitting(a, capacity, later + [b]) == Fitting(a, capacity, later)
    ensures CallerSees(a, capacity, later + [b]) == CallerSees(a, capacity, later)
  {
    hide AppendNew, SortStrings, Fitting;
    var k := Fitting(a, capacity, later);
    assert (later + [b])[..k] == later[..k];
  }

  lemma CallerSeesTheLast(a: seq<string>, capacity: nat, later: seq<seq<string>>)
    requires later != [] && Fitting(a, capacity, later) == |later|
    ensures |a| <= |Chain([a] + later)| && CallerSees(a, capacity, later) == Chain([a] + later)[..|a|]
  {
    hide AppendNew, SortStrings, Fitting, Chain;
    assert later[..|later|] == later;
    ChainIsOneSort(a, later);
    ChainKeepsLength(a, later);
  }

  // ----- a whole pass over the lists of all findings -----

  ghost predicate Unshared(lists: seq<Slice<string>>) {
    forall i, j :: 0 <= i < j < |lists| ==> lists[i].backing != lists[j].backing
  }

  ghost predicate Covers(h: Heap, lists: seq<Slice<string>>) {
    forall i :: 0 <= i < |lists| ==> lists[i].backing in h && |h[lists[i].backing]| == lists[i].backing.Length
  }

  predicate First(ids: seq<string>, p: nat)
    requires p < |ids|
  {
    ids[p] !in ids[..p]
  }

  function FirstOf(ids: seq<string>, id: string): (p: nat)
    requires id in ids
    ensures p < |ids| && ids[p] == id && First(ids, p)
  {
    if ids[0] == id then 0 else
      var p := FirstOf(ids[1..], id);
      assert ids[..p + 1] == [ids[0]] + ids[1..][..p];
      p + 1
  }

  /** What the later members of the group of place `p` listed before the pass, those among the first `i`. */
  ghost function Later(h: Heap, ids: seq<string>, lists: seq<Slice<string>>, p: nat, i: nat): seq<seq<string>>
    requires p < |ids| == |lists| && i <= |ids|
  {
    if i <= p + 1 then []
    else Later(h, ids, lists, p, i - 1) + if ids[i - 1] == ids[p] then [Shown(h, lists[i - 1])] else []
  }

  /** Only one array can change when a finding is looked at. */
  lemma LookTouches(c: Column, id: string, s: Slice<string>)
    ensures var d := Look(c, id, s);
            && (id !in c.held || c.held[id].Moved? ==> d.heap == c.heap)
            && (id in c.held && c.held[id].Kept? ==>
                 forall a :: a != c.held[id].s.backing ==> (a in d.heap <==> a in c.heap) && At(d.heap, a) == At(c.heap, a))
            && (forall x :: x != id ==> (x in d.held <==> x in c.held) && (x in c.held ==> d.held[x] == c.held[x]))
            && id in d.held
  {
    hide AppendNew, MergeUnique, ArrayAfter;
  }

  lemma LookKeeps(c: Column, id: string, s: Slice<string>)
    requires id in c.held && (c.held[id].Kept? ==> c.held[id].s.backing in c.heap)
    ensures Look(c, id, s).heap.Keys == c.heap.Keys
  {
    hide AppendNew, MergeUnique, ArrayAfter;
  }

  lemma LaterSkips(h: Heap, ids: seq<string>, lists: seq<Slice<string>>, p: nat, i: nat)
    requires p < i < |ids| == |lists|
    ensures Later(h, ids, lists, p, i + 1)
            == Later(h, ids, lists, p, i) + if ids[i] == ids[p] then [Shown(h, lists[i])] else []
  {
  }

  lemma OneFirst(ids: seq<string>, p: nat, q: nat)
    requires p < |ids| && q < |ids| && First(ids, p) && First(ids, q) && p != q
    ensures ids[p] != ids[q]
  {
    assert p < q ==> ids[p] in ids[..q];
    assert q < p ==> ids[q] in ids[..p];
  }
}
