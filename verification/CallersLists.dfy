/** What correlation leaves of the lists of its callers, and of the findings when these share arrays: the literals
    shared by all findings of a signature are safe, and five runs show what goes wrong elsewhere. */
module CallersLists {
  import opened Text
  import opened Ordering
  import opened Findings
  import opened Slices
  import opened FindingRecords
  import opened SharedSlices
  import opened SharedFull
  import opened Correlate
  import opened Correlation

  /** Findings that share sorted literals, as those of one signature do: the result is the fold of the values, order
      included, and no shared list changes. */
  method CorrelateLiterals(input: seq<FindingRecord>) returns (out: seq<FindingRecord>)
    requires RolesApart(input) && Filled(SceneOf(input))
    requires SharedSorted(Snapshot(CveLists(input)), CveLists(input)) && SharedSorted(Snapshot(CweLists(input)), CweLists(input))
    modifies Backings(CveLists(input)), Backings(CweLists(input))
    ensures Values(out) == FoldIn([], old(Values(input)))
    ensures forall q :: 0 <= q < |input| && Sharers(old(CveLists(input)), q) ==> input[q].head.cve.View() == old(Views(CveLists(input)))[q]
    ensures forall q :: 0 <= q < |input| && Sharers(old(CweLists(input)), q) ==> input[q].head.cwe.View() == old(Views(CweLists(input)))[q]
  {
    hide *;
    ghost var z := SceneOf(input);
    SceneMeans(input);
    FilledMeans(z);
    SnapshotShows(CveLists(input));
    SnapshotShows(CweLists(input));
    SortedListsAreSafe(z.h, Ids(z.vals), z.cves);
    SortedListsAreSafe(z.g, Ids(z.vals), z.cwes);
    SafeScene(z);
    var st;
    out, st := Merge(input);
  }

  lemma FilledMeans(z: Scene)
    ensures Filled(z) <==> SharersFill(z.cves) && SharersFill(z.cwes)
  {
  }

  lemma SafeScene(z: Scene)
    requires |z.vals| == |z.cves| == |z.cwes| && OrderKept(z.h, Ids(z.vals), z.cves) && OrderKept(z.g, Ids(z.vals), z.cwes)
    requires forall q :: 0 <= q < |z.vals| && Sharers(z.cves, q) ==> SharedFull.AfterPass(z.h, Ids(z.vals), z.cves, q) == Shown(z.h, z.cves[q])
    requires forall q :: 0 <= q < |z.vals| && Sharers(z.cwes, q) ==> SharedFull.AfterPass(z.g, Ids(z.vals), z.cwes, q) == Shown(z.g, z.cwes[q])
    ensures InOrderStill(z)
    ensures forall q :: 0 <= q < |z.vals| && Sharers(z.cves, q) ==> CveAfter(z, q) == Shown(z.h, z.cves[q])
    ensures forall q :: 0 <= q < |z.vals| && Sharers(z.cwes, q) ==> CweAfter(z, q) == Shown(z.g, z.cwes[q])
  {
    hide OrderKept, AfterPass, Shown, Sharers;
  }

  // ----- runs without sharing -----

  /** A list of one entry in an array with room for another. */
  method Roomy(x: string) returns (s: Slice<string>)
    ensures fresh(s.backing) && s.View() == [x] && s.len == 1 && s.backing.Length == 2
  {
    var a := new string[2](_ => x);
    s := Slice(a, 1);
    assert s.View()[0] == x;
  }

  lemma SortedPair()
    ensures SortStrings(["b", "a"]) == ["a", "b"] && SortStrings(["a", "b"]) == ["a", "b"]
  {
    assert ["b", "a"][1..] == ["a"] && ["a"][1..] == [] && ["a", "b"][1..] == ["b"] && ["b"][1..] == [];
    assert SortBy(StrLeq, ["b", "a"]) == InsertSorted(StrLeq, "b", SortBy(StrLeq, ["a"]));
    assert SortBy(StrLeq, ["a", "b"]) == InsertSorted(StrLeq, "a", SortBy(StrLeq, ["b"]));
    assert SortBy(StrLeq, ["a"]) == ["a"] && SortBy(StrLeq, ["b"]) == ["b"];
    assert !StrLeq("b", "a") && StrLeq("a", "b");
  }

  lemma AppendOne(a: seq<string>, x: string)
    ensures AppendNew(a, [x]) == if x in a then a else a + [x]
  {
    AppendNewSnoc(a, [], x);
    NothingNew(a);
    assert [] + [x] == [x];
  }

  lemma OneLater(a: seq<string>, capacity: nat, b: seq<string>)
    ensures CallerSees(a, capacity, [b]) == if |AppendNew(a, b)| <= capacity then SortStrings(AppendNew(a, b))[..|a|] else a
  {
    assert [b][..0] == [] && [b][..1] == [b];
    assert Flat([b]) == Flat([]) + b == b;
    assert Fitting(a, capacity, []) == 0;
  }

  ghost function Views(lists: seq<Slice<string>>): (r: seq<seq<string>>)
    reads Backings(lists)
    ensures |r| == |lists| && forall k :: 0 <= k < |lists| ==> r[k] == lists[k].View()
  {
    seq(|lists|, k requires 0 <= k < |lists| reads Backings(lists) => lists[k].View())
  }

  lemma {:induction false} LaterIsAll(h: Heap, ids: seq<string>, lists: seq<Slice<string>>, views: seq<seq<string>>, i: nat)
    requires 1 <= i <= |ids| == |lists| == |views| && forall k :: 0 <= k < |ids| ==> ids[k] == ids[0] && views[k] == Shown(h, lists[k])
    ensures First(ids, 0) && Later(h, ids, lists, 0, i) == views[1..i]
  {
    hide Shown;
    assert ids[..0] == [];
    if i > 1 {
      LaterIsAll(h, ids, lists, views, i - 1);
      assert views[1..i] == views[1..i - 1] + [views[i - 1]];
    }
  }

  lemma SeenFirst(z: Scene, views: seq<seq<string>>)
    requires |z.vals| == |z.cves| == |views| == |Ids(z.vals)| > 0
    requires forall k :: 0 <= k < |views| ==> Ids(z.vals)[k] == Ids(z.vals)[0] && views[k] == Shown(z.h, z.cves[k])
    requires !Sharers(z.cves, 0)
    ensures CveAfter(z, 0) == CallerSees(views[0], z.cves[0].backing.Length, views[1..])
  {
    hide CallerSees, Later, GetsSorted;
    assert views[1..|views|] == views[1..];
    LaterIsAll(z.h, Ids(z.vals), z.cves, views, |views|);
  }

  lemma UnsharedFills(lists: seq<Slice<string>>)
    requires Unshared(lists)
    ensures SharersFill(lists) && forall q :: 0 <= q < |lists| ==> !Sharers(lists, q)
  {
  }

  /** One group correlated, no two lists in one array: what the caller of the first finding is left with. */
  method CorrelateGroup(input: seq<FindingRecord>) returns (out: seq<FindingRecord>)
    requires input != [] && RolesApart(input) && Unshared(CveLists(input))
    requires forall k :: 0 <= k < |input| ==> input[k].head.plain.id == input[0].head.plain.id
    modifies Backings(CveLists(input)), Backings(CweLists(input))
    ensures var views := old(Views(CveLists(input)));
            input[0].head.cve.View() == CallerSees(views[0], old(input[0].head.cve.backing).Length, views[1..])
  {
    hide *;
    ghost var z, views := SceneOf(input), Views(CveLists(input));
    SceneMeans(input);
    SnapshotShows(CveLists(input));
    UnsharedFills(CveLists(input));
    SeenFirst(z, views);
    var st;
    out, st := Merge(input);
  }

  /** Two findings of one identity over arrays of their own. */
  ghost predicate Pair(a: FindingHead, b: FindingHead) {
    && a.plain.id == b.plain.id && a.cve.backing != b.cve.backing
    && RolesOf(a, a) && RolesOf(b, b) && RolesOf(a, b) && RolesOf(b, a)
  }

  lemma TwoViews(first: FindingRecord, second: FindingRecord)
    requires Pair(first.head, second.head)
    ensures var input := [first, second];
            && RolesApart(input) && Unshared(CveLists(input))
            && Views(CveLists(input)) == [first.head.cve.View(), second.head.cve.View()]
            && Views(CveLists(input))[1..] == [second.head.cve.View()]
            && Backings(CveLists(input)) == {first.head.cve.backing, second.head.cve.backing}
            && Backings(CweLists(input)) == {first.head.cwe.backing, second.head.cwe.backing}
            && forall k :: 0 <= k < 2 ==> input[k].head.plain.id == first.head.plain.id
  {
    var input := [first, second];
    assert CveLists(input) == [first.head.cve, second.head.cve] && CweLists(input) == [first.head.cwe, second.head.cwe];
    TwoBackings(first.head.cve, second.head.cve);
    TwoBackings(first.head.cwe, second.head.cwe);
  }

  lemma TwoBackings(s: Slice<string>, t: Slice<string>)
    ensures Backings([s, t]) == {s.backing, t.backing}
  {
    assert [s, t][0].backing in Backings([s, t]) && [s, t][1].backing in Backings([s, t]);
  }

  method CorrelateTwo(first: FindingRecord, second: FindingRecord) returns (out: seq<FindingRecord>)
    requires Pair(first.head, second.head)
    modifies first.head.cve.backing, second.head.cve.backing, first.head.cwe.backing, second.head.cwe.backing
    ensures first.head.cve.View() ==
            CallerSees(old(first.head.cve.View()), old(first.head.cve.backing).Length, [old(second.head.cve.View())])
  {
    hide *;
    TwoViews(first, second);
    out := CorrelateGroup([first, second]);
  }

  lemma ThreeViews(first: FindingRecord, second: FindingRecord, third: FindingRecord)
    requires Pair(first.head, second.head) && Pair(first.head, third.head) && Pair(second.head, third.head)
    ensures var input := [first, second, third];
            && RolesApart(input) && Unshared(CveLists(input))
            && Views(CveLists(input)) == [first.head.cve.View(), second.head.cve.View(), third.head.cve.View()]
            && Views(CveLists(input))[1..] == [second.head.cve.View(), third.head.cve.View()]
            && Backings(CveLists(input)) == {first.head.cve.backing, second.head.cve.backing, third.head.cve.backing}
            && Backings(CweLists(input)) == {first.head.cwe.backing, second.head.cwe.backing, third.head.cwe.backing}
            && forall k :: 0 <= k < 3 ==> input[k].head.plain.id == first.head.plain.id
  {
    var input := [first, second, third];
    assert CveLists(input) == [first.head.cve, second.head.cve, third.head.cve];
    assert CweLists(input) == [first.head.cwe, second.head.cwe, third.head.cwe];
    ThreeBackings(first.head.cve, second.head.cve, third.head.cve);
    ThreeBackings(first.head.cwe, second.head.cwe, third.head.cwe);
  }

  lemma ThreeBackings(s: Slice<string>, t: Slice<string>, u: Slice<string>)
    ensures Backings([s, t, u]) == {s.backing, t.backing, u.backing}
  {
    var l := [s, t, u];
    assert l[0].backing in Backings(l) && l[1].backing in Backings(l) && l[2].backing in Backings(l);
  }

  method CorrelateThree(first: FindingRecord, second: FindingRecord, third: FindingRecord) returns (out: seq<FindingRecord>)
    requires Pair(first.head, second.head) && Pair(first.head, third.head) && Pair(second.head, third.head)
    modifies first.head.cve.backing, second.head.cve.backing, third.head.cve.backing
    modifies first.head.cwe.backing, second.head.cwe.backing, third.head.cwe.backing
    ensures first.head.cve.View() ==
            CallerSees(old(first.head.cve.View()), old(first.head.cve.backing).Length,
                       [old(second.head.cve.View()), old(third.head.cve.View())])
  {
    hide *;
    ThreeViews(first, second, third);
    out := CorrelateGroup([first, second, third]);
  }

  /** A finding that lists `cve`, with its other lists to itself. */
  method Listing(f: Finding, cve: Slice<string>) returns (r: FindingRecord)
    ensures fresh(r) && r.head.cve == cve && r.head.plain.id == f.id
    ensures fresh(r.head.tools.backing) && fresh(r.head.cwe.backing) && r.head.tools.backing != r.head.cwe.backing
  {
    r := new FindingRecord(f);
    r.head := r.head.(cve := cve);
  }

  /** The caller's own list is sorted under its feet: two findings of one identity are enough. */
  method CallersListIsReordered(f: Finding) returns (first: FindingRecord, before: seq<string>)
    ensures before == ["b", "a"] && first.head.cve.View() == ["a", "b"]
  {
    hide *;
    SortedPair();
    OneLater(["b", "a"], 2, []);
    NothingNew(["b", "a"]);
    var s := Full(["b", "a"]);
    var t := Full<string>([]);
    first := Listing(f, s);
    var second := Listing(f, t);
    before := first.head.cve.View();
    Paired(first.head, second.head);
    var _ := CorrelateTwo(first, second);
  }

  lemma Paired(a: FindingHead, b: FindingHead)
    requires a.plain.id == b.plain.id && a.cve.backing != b.cve.backing
    requires a.tools.backing != a.cve.backing && a.tools.backing != a.cwe.backing && a.cve.backing != a.cwe.backing
    requires b.tools.backing != b.cve.backing && b.tools.backing != b.cwe.backing && b.cve.backing != b.cwe.backing
    requires a.tools.backing != b.cve.backing && a.tools.backing != b.cwe.backing && a.cve.backing != b.cwe.backing
    requires b.tools.backing != a.cve.backing && b.tools.backing != a.cwe.backing && b.cve.backing != a.cwe.backing
    ensures Pair(a, b)
  {
  }

  lemma TwoLater()
    ensures CallerSees(["b"], 2, [["a"], ["c"]]) == ["a"]
  {
    var later := [["a"], ["c"]];
    FittingTwo();
    assert later[..1] == [["a"]];
    assert Flat([["a"]]) == ["a"] by {
      FlatSnoc([], ["a"]);
      assert [] + [["a"]] == [["a"]] && Flat([]) == [] && [] + ["a"] == ["a"];
    }
    hide SortStrings, AppendNew, Fitting;
    AppendOne(["b"], "a");
    SortedPair();
  }

  lemma FittingTwo()
    ensures Fitting(["b"], 2, [["a"], ["c"]]) == 1
  {
    hide AppendNew, Fitting;
    assert [] + [["a"]] == [["a"]] && [["a"]] + [["c"]] == [["a"], ["c"]] && ["a"] + ["c"] == ["a", "c"] && [] + ["a"] == ["a"];
    FlatSnoc([], ["a"]);
    FlatSnoc([["a"]], ["c"]);
    FittingSnoc(["b"], 2, [], ["a"]);
    FittingSnoc(["b"], 2, [["a"]], ["c"]);
    AppendOne(["b"], "a");
    AppendNewSnoc(["b"], ["a"], "c");
  }

  /** With a third finding, the room in the array decides: the first merge sorts the caller's list away, the second
      moves on, and the caller is left with an entry it never listed. */
  method CallersListIsReplaced(f: Finding) returns (first: FindingRecord, before: seq<string>)
    ensures before == ["b"] && first.head.cve.View() == ["a"]
  {
    hide *;
    TwoLater();
    var s := Roomy("b");
    var t := Full(["a"]);
    var u := Full(["c"]);
    first := Listing(f, s);
    var second := Listing(f, t);
    var third := Listing(f, u);
    before := first.head.cve.View();
    Paired(first.head, second.head);
    Paired(first.head, third.head);
    Paired(second.head, third.head);
    var _ := CorrelateThree(first, second, third);
  }
  // ----- findings that share nothing but CVE lists -----

  ghost predicate Own(f: FindingHead) {
    f.tools.backing != f.cve.backing && f.tools.backing != f.cwe.backing && f.cve.backing != f.cwe.backing
  }

  ghost predicate Foreign(f: FindingHead, g: FindingHead) {
    && f.tools.backing != g.cve.backing && f.tools.backing != g.cwe.backing
    && f.cwe.backing != g.cve.backing && f.cwe.backing != g.tools.backing && f.cwe.backing != g.cwe.backing
  }

  /** The tools and the CWEs of each finding lie in arrays of their own. */
  ghost predicate AllOwn(hs: seq<FindingHead>) {
    forall i, j :: 0 <= i < |hs| && 0 <= j < |hs| ==> Own(hs[i]) && (i != j ==> Foreign(hs[i], hs[j]))
  }

  /** The findings use none of the arrays of `ss` for their tools or CWEs. */
  ghost predicate Clear(ss: seq<Slice<string>>, hs: seq<FindingHead>) {
    forall s, f :: s in ss && f in hs ==> s.backing != f.tools.backing && s.backing != f.cwe.backing
  }

  lemma AllOwnApart(input: seq<FindingRecord>)
    requires AllOwn(Heads(input))
    ensures RolesApart(input) && SharersFill(CweLists(input))
  {
    var hs := Heads(input);
    forall i, j | 0 <= i < |input| && 0 <= j < |input| ensures RolesOf(input[i].head, input[j].head) {
      assert hs[i] == input[i].head && hs[j] == input[j].head;
      assert Own(hs[i]) && (i != j ==> Foreign(hs[i], hs[j]) && Foreign(hs[j], hs[i]));
    }
    forall i, j | 0 <= i < |input| && 0 <= j < |input| && i != j
      ensures CweLists(input)[i].backing != CweLists(input)[j].backing {
      assert Foreign(hs[i], hs[j]);
    }
  }

  lemma OneMoreOwn(hs: seq<FindingHead>, f: FindingHead)
    requires AllOwn(hs) && Own(f) && forall g :: g in hs ==> Foreign(f, g) && Foreign(g, f)
    ensures AllOwn(hs + [f])
  {
    hide Own, Foreign;
    var all := hs + [f];
    forall i, j | 0 <= i < |all| && 0 <= j < |all| ensures Own(all[i]) && (i != j ==> Foreign(all[i], all[j])) {
      if i < |hs| { assert Own(hs[i]) && hs[i] in hs; }
      if j < |hs| { assert Own(hs[j]) && hs[j] in hs; }
    }
  }

  /** One more finding, which lists `cve`. */
  method Citing(f: Finding, cve: Slice<string>, ghost ss: seq<Slice<string>>, ghost hs: seq<FindingHead>) returns (r: FindingRecord)
    requires AllOwn(hs) && Clear(ss, hs) && cve in ss
    ensures fresh(r) && r.head.cve == cve && r.head.plain.id == f.id && fresh(r.head.cwe.backing)
    ensures AllOwn(hs + [r.head]) && Clear(ss, hs + [r.head])
  {
    hide AllOwn;
    r := Listing(f, cve);
    OneMoreOwn(hs, r.head);
  }

  // ----- a run with a shared literal that is not sorted -----

  lemma LiteralGetsSorted(h: Heap, s: Slice<string>, ids: seq<string>, lists: seq<Slice<string>>)
    requires |ids| == 3 && ids[0] != ids[1] == ids[2] && lists == [s, s, s] && Shown(h, s) == ["b", "a"]
    ensures First(ids, 0) && Sharers(lists, 0) && GetsSorted(h, ids, lists, s.backing) && !OrderKept(h, ids, lists)
    ensures SharedFull.AfterPass(h, ids, lists, 0) == ["a", "b"]
  {
    hide Shown, SortStrings, CallerSees;
    SortedPair();
    assert lists[1].backing == lists[0].backing && Sharers(lists, 0);
    assert First(ids, 0) && First(ids, 1) by { assert ids[..0] == [] && ids[..1] == [ids[0]]; }
    assert Later(h, ids, lists, 0, 1) == [] && Later(h, ids, lists, 1, 2) == [];
    assert Later(h, ids, lists, 0, 2) == [] && Later(h, ids, lists, 0, 3) == [];
    assert Later(h, ids, lists, 1, 3) == [] + [["b", "a"]] == [["b", "a"]];
    assert SecondIsNothingNew(h, ids, lists, 1) && lists[1].backing == s.backing;
    assert GetsSorted(h, ids, lists, s.backing);
    assert !Sorted(StrLeq, ["b", "a"]) by { assert !StrLeq(["b", "a"][0], ["b", "a"][1]); }
    assert !KeepsOrder(h, ids, lists, 0);
  }

  lemma AllFull(lists: seq<Slice<string>>)
    requires forall i :: 0 <= i < |lists| ==> lists[i].len >= lists[i].backing.Length
    ensures SharersFill(lists)
  {
  }

  lemma LostOrder(z: Scene, s: Slice<string>)
    requires |z.vals| == |z.cves| == |z.cwes| == 3 && z.cves == [s, s, s] && Shown(z.h, s) == ["b", "a"]
    requires Ids(z.vals)[0] != Ids(z.vals)[1] == Ids(z.vals)[2] && SharersFill(z.cves) && SharersFill(z.cwes)
    ensures Filled(z) && !InOrderStill(z) && CveAfter(z, 0) == ["a", "b"]
  {
    hide OrderKept, SharersFill, Shown;
    LiteralGetsSorted(z.h, s, Ids(z.vals), z.cves);
    hide AfterPass;
  }

  lemma LiteralScene(input: seq<FindingRecord>, s: Slice<string>)
    requires |input| == 3 && s.len == s.backing.Length && s.View() == ["b", "a"] && forall k :: 0 <= k < 3 ==> input[k].head.cve == s
    requires input[0].head.plain.id != input[1].head.plain.id == input[2].head.plain.id && AllOwn(Heads(input))
    ensures RolesApart(input)
    ensures var z := SceneOf(input);
            && |z.vals| == |z.cves| == |z.cwes| == 3 && z.vals == Values(input) && SharersFill(z.cves)
            && z.vals[0].cve == ["b", "a"] && Filled(z) && !InOrderStill(z) && CveAfter(z, 0) == ["a", "b"]
  {
    hide *;
    var z := SceneOf(input);
    SceneMeans(input);
    SnapshotShows(CveLists(input));
    AllOwnApart(input);
    AllFull(CveLists(input));
    assert z.cves == [s, s, s];
    LostOrder(z, s);
    ListedFirst(z);
  }

  /** Three findings that cite one literal, the last two of one identity. */
  method ThreeCitations(f: Finding, o: Finding, s: Slice<string>) returns (input: seq<FindingRecord>, ghost owned: set<object>)
    requires f.id != o.id
    ensures |input| == 3 && AllOwn(Heads(input)) && forall k :: 0 <= k < 3 ==> input[k].head.cve == s
    ensures input[0].head.plain.id == f.id && input[1].head.plain.id == input[2].head.plain.id == o.id
    ensures fresh(owned) && forall k :: 0 <= k < |input| ==> input[k].head.cwe.backing in owned
  {
    hide *;
    NothingOwn([s]);
    var first := Citing(f, s, [s], []);
    var second := Citing(o, s, [s], [] + [first.head]);
    var third := Citing(o, s, [s], [] + [first.head] + [second.head]);
    input := [first, second, third];
    HeadsOf(input);
    assert [] + [first.head] + [second.head] + [third.head] == Heads(input);
    owned := {first.head.cwe.backing, second.head.cwe.backing, third.head.cwe.backing};
  }

  /** The second group of three findings sorts the literal under the first, whose one member loses its order. */
  method OrderIsLost(f: Finding, o: Finding)
    returns (first: FindingRecord, before: seq<string>, out: seq<FindingRecord>, ghost vals: seq<Finding>)
    requires f.id != o.id
    ensures before == ["b", "a"] && first.head.cve.View() == ["a", "b"]
    ensures |vals| == 3 && vals[0].cve == before && Values(out) != FoldIn([], vals)
  {
    hide *;
    var s := Full(["b", "a"]);
    var input;
    ghost var owned;
    input, owned := ThreeCitations(f, o, s);
    first, before := input[0], s.View();
    LiteralScene(input, s);
    vals := Values(input);
    BackingsIn(input, owned + {s.backing});
    var st;
    out, st := Merge(input);
  }

  lemma BackingsIn(input: seq<FindingRecord>, owned: set<object>)
    requires forall k :: 0 <= k < |input| ==> input[k].head.cve.backing in owned && input[k].head.cwe.backing in owned
    ensures forall a :: a in Backings(CveLists(input)) ==> a in owned
    ensures forall a :: a in Backings(CweLists(input)) ==> a in owned
  {
  }

  lemma NothingOwn(ss: seq<Slice<string>>)
    ensures AllOwn([]) && Clear(ss, [])
  {
  }

  lemma HeadsOf(input: seq<FindingRecord>)
    ensures |Heads(input)| == |input| && forall k :: 0 <= k < |input| ==> Heads(input)[k] == input[k].head
  {
  }

  lemma ListedFirst(z: Scene)
    requires |z.vals| == |z.cves| == |z.cwes| > 0 && Listed(z.vals, z.h, z.g, z.cves, z.cwes)
    ensures z.vals[0].cve == Shown(z.h, z.cves[0])
  {
    hide Shown;
  }

  // ----- a run over an array with room to spare -----

  lemma LookFits(c: Column, id: string, s: Slice<string>, t: Slice<string>)
    requires id in c.held && c.held[id] == Kept(t)
    requires |AppendNew(Shown(c.heap, t), Shown(c.heap, s))| <= |At(c.heap, t.backing)|
    ensures var all := AppendNew(Shown(c.heap, t), Shown(c.heap, s));
            Look(c, id, s) == Column(c.heap[t.backing := ArrayAfter(At(c.heap, t.backing), |Shown(c.heap, t)|, Shown(c.heap, s))],
                                     c.held[id := Kept(Slice(t.backing, |all|))])
  {
    hide AppendNew, ArrayAfter;
  }

  lemma SortedOnce()
    ensures SortStrings(["b", "c"]) == ["b", "c"] && SortStrings(["b", "d"]) == ["b", "d"]
  {
    hide SortStrings;
    assert StrLeq("b", "c") && StrLeq("b", "d");
    SortChangesNothing(["b", "c"]);
    SortChangesNothing(["b", "d"]);
  }

  /** Appending one new entry into the room behind `b`. */
  lemma IntoTheRoom(arr: seq<string>, x: string)
    requires |arr| == 2 && arr[0] == "b" && x != "b" && (x == "c" || x == "d")
    ensures AppendNew(["b"], [x]) == ["b", x] && ArrayAfter(arr, 1, [x]) == ["b", x]
  {
    hide SortStrings, AppendNew;
    AppendOne(["b"], x);
    SortedOnce();
    assert arr[..1] == ["b"] && ["b"] + [x] == ["b", x] && arr[2..] == [];
  }

  /** Findings of two identities share an array with room to spare: the second group writes over what the first
      appended there. */
  lemma PassOverRoom(h: Heap, x: array<string>, y: array<string>, z: array<string>, ids: seq<string>, lists: seq<Slice<string>>)
    requires x != y && x != z && x in h && y in h && z in h && |h[x]| == 2 && h[x][0] == "b" && h[y] == ["c"] && h[z] == ["d"]
    requires |ids| == 4 && ids[0] == ids[1] != ids[2] == ids[3]
    requires lists == [Slice(x, 1), Slice(y, 1), Slice(x, 1), Slice(z, 1)]
    ensures Left(Pass(h, ids, lists), ids[0]) == ["b", "d"] != MergeUnique(["b"], ["c"])
  {
    IntoTheRoom(["b", "b"], "c");
    SortedOnce();
    hide AppendNew, ArrayAfter, Look, SortStrings;
    var c0 := Column(h, map[]);
    var c1 := Look(c0, ids[0], lists[0]);
    var c2 := Look(c1, ids[1], lists[1]);
    var c3 := Look(c2, ids[2], lists[2]);
    var c4 := Look(c3, ids[3], lists[3]);
    FourLooks(h, ids, lists);
    FirstTwo(h, x, y, ids[0], lists);
    LastTwo(c2, x, z, ids[0], ids[2], lists);
  }

  lemma FourLooks(h: Heap, ids: seq<string>, lists: seq<Slice<string>>)
    requires |ids| == |lists| == 4
    ensures Pass(h, ids, lists) == Look(Look(Look(Look(Column(h, map[]), ids[0], lists[0]), ids[1], lists[1]), ids[2], lists[2]), ids[3], lists[3])
  {
    hide Look;
    assert ids[..4] == ids && lists[..4] == lists;
    PassSnoc(h, ids, lists, 3);
    PassSnoc(h, ids, lists, 2);
    PassSnoc(h, ids, lists, 1);
    PassSnoc(h, ids, lists, 0);
    assert ids[..0] == [] && lists[..0] == [];
  }

  lemma FirstTwo(h: Heap, x: array<string>, y: array<string>, id: string, lists: seq<Slice<string>>)
    requires x != y && x in h && y in h && |h[x]| == 2 && h[x][0] == "b" && h[y] == ["c"]
    requires |lists| == 4 && lists[0] == Slice(x, 1) && lists[1] == Slice(y, 1)
    ensures Look(Look(Column(h, map[]), id, lists[0]), id, lists[1]) == Column(h[x := ["b", "c"]], map[id := Kept(Slice(x, 2))])
  {
    hide AppendNew, ArrayAfter;
    var c1 := Look(Column(h, map[]), id, lists[0]);
    assert c1 == Column(h, map[id := Kept(Slice(x, 1))]);
    IntoTheRoom(h[x], "c");
    assert Shown(h, lists[0]) == ["b"] && Shown(h, lists[1]) == ["c"];
    LookFits(c1, id, lists[1], lists[0]);
  }

  lemma LastTwo(c: Column, x: array<string>, z: array<string>, id: string, other: string, lists: seq<Slice<string>>)
    requires x != z && x in c.heap && z in c.heap && c.heap[x] == ["b", "c"] && c.heap[z] == ["d"]
    requires c.held == map[id := Kept(Slice(x, 2))] && other != id
    requires |lists| == 4 && lists[2] == Slice(x, 1) && lists[3] == Slice(z, 1)
    ensures Left(Look(Look(c, other, lists[2]), other, lists[3]), id) == ["b", "d"]
  {
    hide AppendNew, ArrayAfter;
    var c3 := Look(c, other, lists[2]);
    assert c3 == Column(c.heap, map[id := Kept(Slice(x, 2)), other := Kept(Slice(x, 1))]);
    IntoTheRoom(c.heap[x], "d");
    assert Shown(c.heap, lists[2]) == ["b"] && Shown(c.heap, lists[3]) == ["d"];
    LookFits(c3, other, lists[3], lists[2]);
    var c4 := Look(c3, other, lists[3]);
    assert c4.held[id] == Kept(Slice(x, 2)) && c4.heap[x] == ["b", "d"];
  }

  /** The same findings folded as values. */
  lemma FoldedRoom(z: Scene) returns (k: nat)
    requires |z.vals| == |z.cves| == |z.cwes| == 4 && Listed(z.vals, z.h, z.g, z.cves, z.cwes)
    requires var ids := Ids(z.vals); ids[0] == ids[1] != ids[2] == ids[3]
    requires Shown(z.h, z.cves[0]) == ["b"] && Shown(z.h, z.cves[1]) == ["c"]
    ensures k < |FoldIn([], z.vals)| && FoldIn([], z.vals)[k].id == Ids(z.vals)[0] && FoldIn([], z.vals)[k].cve == ["b", "c"]
  {
    hide FoldIn, Chain, Later, Shown, FoldedLists, MergeFinding, Listed, First, IndexOf;
    var ids, folded := Ids(z.vals), FoldIn([], z.vals);
    assert z.vals[..4] == z.vals && ids[..4] == ids;
    FoldedColumns(z.vals, z.h, z.g, z.cves, z.cwes, 4);
    FirstIsFirst(ids);
    assert FoldedLists(z.vals, z.h, z.g, z.cves, z.cwes, 4, folded, 0);
    ListsFolded(z.vals, z.h, z.g, z.cves, z.cwes, folded, 0);
    k := IndexOf(folded, ids[0]);
    TwoOfFour(z.h, ids, z.cves);
    ChainSnoc([["b"]], ["c"]);
    assert [["b"]] + [["c"]] == [["b"], ["c"]];
    OneAndOne();
  }

  lemma FirstIsFirst(ids: seq<string>)
    requires ids != []
    ensures First(ids, 0)
  {
  }

  lemma TwoOfFour(h: Heap, ids: seq<string>, lists: seq<Slice<string>>)
    requires |ids| == |lists| == 4 && ids[0] == ids[1] != ids[2] == ids[3]
    ensures Later(h, ids, lists, 0, 4) == [Shown(h, lists[1])]
  {
    hide Shown;
    LaterSkips(h, ids, lists, 0, 1);
    LaterSkips(h, ids, lists, 0, 2);
    LaterSkips(h, ids, lists, 0, 3);
    assert Later(h, ids, lists, 0, 1) == [];
  }

  lemma OneAndOne()
    ensures Chain([["b"]]) == ["b"] && MergeUnique(["b"], ["c"]) == ["b", "c"]
  {
    hide SortStrings, AppendNew;
    AppendOne(["b"], "c");
    SortedOnce();
    assert ["b"] + ["c"] == ["b", "c"];
  }

  ghost predicate WithRoom(input: seq<FindingRecord>, id: string, other: string)
    reads input, Backings(CveLists(input))
  {
    && |input| == 4 && id != other
    && input[0].head.plain.id == input[1].head.plain.id == id && input[2].head.plain.id == input[3].head.plain.id == other
    && RoomLists(input[0].head.cve, input[1].head.cve, input[2].head.cve, input[3].head.cve)
    && CveLists(input)[0].View() == ["b"] && CveLists(input)[1].View() == ["c"] && CveLists(input)[3].View() == ["d"]
  }

  ghost predicate RoomLists(a: Slice<string>, b: Slice<string>, c: Slice<string>, d: Slice<string>) {
    && a == c && a.len == 1 && a.backing.Length == 2 && b.len == b.backing.Length == 1 && d.len == d.backing.Length == 1
    && a.backing != b.backing && a.backing != d.backing
  }

  lemma RoomFrom(input: seq<FindingRecord>, id: string, other: string, s: Slice<string>, t: Slice<string>, u: Slice<string>)
    requires |input| == 4 && id != other && RoomLists(s, t, s, u)
    requires input[0].head.plain.id == input[1].head.plain.id == id && input[2].head.plain.id == input[3].head.plain.id == other
    requires input[0].head.cve == s && input[1].head.cve == t && input[2].head.cve == s && input[3].head.cve == u
    requires s.View() == ["b"] && t.View() == ["c"] && u.View() == ["d"]
    ensures WithRoom(input, id, other)
  {
  }

  lemma RoomScene(input: seq<FindingRecord>, id: string, other: string) returns (k: nat)
    requires |input| == 4 && AllOwn(Heads(input)) && WithRoom(input, id, other)
    ensures RolesApart(input)
    ensures var z := SceneOf(input);
            && |z.vals| == |z.cves| == |z.cwes| && z.vals == Values(input) && k < |FoldIn([], z.vals)|
            && FoldIn([], z.vals)[k].id == id && FoldIn([], z.vals)[k].cve == ["b", "c"]
            && Left(CvesOf(z), FoldIn([], z.vals)[k].id) == ["b", "d"]
  {
    hide *;
    var z := SceneOf(input);
    SceneMeans(input);
    SnapshotShows(CveLists(input));
    AllOwnApart(input);
    RoomMeans(input, id, other);
    k := FoldedRoom(z);
    RoomHeap(z.h, z.cves, Ids(z.vals));
    CvesOfMeans(z);
  }

  lemma RoomMeans(input: seq<FindingRecord>, id: string, other: string)
    requires WithRoom(input, id, other)
    ensures |input| == 4 && id != other
    ensures input[0].head.plain.id == input[1].head.plain.id == id && input[2].head.plain.id == input[3].head.plain.id == other
    ensures RoomLists(input[0].head.cve, input[1].head.cve, input[2].head.cve, input[3].head.cve)
    ensures input[0].head.cve.View() == ["b"] && input[1].head.cve.View() == ["c"] && input[3].head.cve.View() == ["d"]
  {
  }

  lemma CvesOfMeans(z: Scene)
    requires |z.vals| == |z.cves|
    ensures CvesOf(z) == Pass(z.h, Ids(z.vals), z.cves)
  {
  }

  lemma RoomHeap(h: Heap, lists: seq<Slice<string>>, ids: seq<string>)
    requires |lists| == |ids| == 4 && Covers(h, lists) && ids[0] == ids[1] != ids[2] == ids[3]
    requires RoomLists(lists[0], lists[1], lists[2], lists[3])
    requires Shown(h, lists[0]) == ["b"] && Shown(h, lists[1]) == ["c"] && Shown(h, lists[3]) == ["d"]
    ensures Left(Pass(h, ids, lists), ids[0]) == ["b", "d"]
  {
    hide Left, Pass;
    var x, y, z := lists[0].backing, lists[1].backing, lists[3].backing;
    assert h[x][0] == h[x][..1][0];
    assert h[y][..1] == h[y] && h[z][..1] == h[z];
    assert lists == [Slice(x, 1), Slice(y, 1), Slice(x, 1), Slice(z, 1)];
    PassOverRoom(h, x, y, z, ids, lists);
  }

  lemma OutcomeAt(z: Scene, out: seq<FindingRecord>, st: Stats, k: nat)
    requires |z.vals| == |z.cves| == |z.cwes| && Outcome(z, out, st) && k < |FoldIn([], z.vals)|
    ensures k < |out| && out[k].Value().id == FoldIn([], z.vals)[k].id
    ensures out[k].Value().cve == Left(CvesOf(z), FoldIn([], z.vals)[k].id)
  {
    hide Left, FoldIn, Pass, Ids, Filter, FindingRecord.Value;
  }

  /** Four findings, two of each identity: the first of each cites the same list, in an array with room. */
  method FourCitations(f: Finding, o: Finding) returns (input: seq<FindingRecord>, ghost owned: set<object>)
    requires f.id != o.id
    ensures |input| == 4 && AllOwn(Heads(input)) && WithRoom(input, f.id, o.id)
    ensures fresh(owned) && forall k :: 0 <= k < |input| ==> input[k].head.cve.backing in owned && input[k].head.cwe.backing in owned
  {
    hide *;
    var s := Roomy("b");
    var t := Full(["c"]);
    var u := Full(["d"]);
    ghost var ss := [s, t, u];
    NothingOwn(ss);
    var first := Citing(f, s, ss, []);
    var second := Citing(f, t, ss, [] + [first.head]);
    var third := Citing(o, s, ss, [] + [first.head] + [second.head]);
    var fourth := Citing(o, u, ss, [] + [first.head] + [second.head] + [third.head]);
    input := [first, second, third, fourth];
    HeadsOf(input);
    assert [] + [first.head] + [second.head] + [third.head] + [fourth.head] == Heads(input);
    RoomFrom(input, f.id, o.id, s, t, u);
    owned := {s.backing, t.backing, u.backing, first.head.cwe.backing, second.head.cwe.backing, third.head.cwe.backing, fourth.head.cwe.backing};
  }

  /** Two groups start in one array with room to spare: a CVE of the first is lost, and it gets one of the second. */
  method ListLosesAnEntry(f: Finding, o: Finding) returns (out: seq<FindingRecord>, ghost vals: seq<Finding>, ghost k: nat)
    requires f.id != o.id
    ensures k < |FoldIn([], vals)| && k < |out| && out[k].Value().id == FoldIn([], vals)[k].id == f.id
    ensures FoldIn([], vals)[k].cve == ["b", "c"] && out[k].Value().cve == ["b", "d"]
  {
    hide *;
    var input;
    ghost var owned;
    input, owned := FourCitations(f, o);
    k := RoomScene(input, f.id, o.id);
    vals := Values(input);
    ghost var z := SceneOf(input);
    BackingsIn(input, owned);
    var st;
    out, st := Merge(input);
    OutcomeAt(z, out, st, k);
  }
}
