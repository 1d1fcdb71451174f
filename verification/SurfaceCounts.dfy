/** Conservation and shape of the attack-surface graph: every placeable finding is counted exactly once in
    the roots' totals, identifiers are unique, links and counters are right. */
module SurfaceCounts {
  import opened Text
  import opened Ordering
  import opened Findings
  import opened Records
  import opened SurfaceTree
  import opened SurfaceBuild
  import opened SurfaceProofs

  // ----- tallies over a partition -----

  lemma TallySnoc(ss: seq<Spot>, s: Spot)
    ensures Tally(ss + [s]) == AddCount(Tally(ss), s.severity)
  {
    MapSnoc(SeverityOf, ss, s);
  }

  function SumAll(cs: seq<Counts>): Counts {
    if cs == [] then ZERO_COUNTS else SumCounts(cs[0], SumAll(cs[1..]))
  }

  lemma AddToSum(a: Counts, b: Counts, s: Severity)
    ensures SumCounts(AddCount(a, s), b) == AddCount(SumCounts(a, b), s)
    ensures SumCounts(b, AddCount(a, s)) == AddCount(SumCounts(b, a), s)
  {
  }

  /** Counting one more finding in one of the terms counts it once in the sum. */
  lemma {:induction false} SumBump(cs: seq<Counts>, j: nat, s: Severity)
    requires j < |cs|
    ensures SumAll(cs[j := AddCount(cs[j], s)]) == AddCount(SumAll(cs), s)
  {
    hide SumCounts, AddCount;
    var ds := cs[j := AddCount(cs[j], s)];
    if j == 0 {
      assert ds[1..] == cs[1..];
      AddToSum(cs[0], SumAll(cs[1..]), s);
    } else {
      assert ds[1..] == cs[1..][j - 1 := AddCount(cs[1..][j - 1], s)];
      SumBump(cs[1..], j - 1, s);
      AddToSum(SumAll(cs[1..]), cs[0], s);
    }
  }

  /** What each of the given next steps leads to, tallied. */
  function Shares(path: seq<Step>, steps: seq<Step>, ss: seq<Spot>): seq<Counts> {
    MapSeq((st: Step) => Tally(Filter(Within(path + [st]), ss)), steps)
  }

  predicate LedBy(path: seq<Step>, steps: seq<Step>, s: Spot) {
    path < s.path && s.path[|path|] in steps
  }

  lemma SharesSnoc(path: seq<Step>, steps: seq<Step>, ss: seq<Spot>, s: Spot, j: nat)
    requires NoDuplicates(steps) && j < |steps| && path < s.path && s.path[|path|] == steps[j]
    ensures Shares(path, steps, ss + [s]) == Shares(path, steps, ss)[j := AddCount(Shares(path, steps, ss)[j], s.severity)]
  {
    hide Tally, AddCount;
    var a, b := Shares(path, steps, ss + [s]), Shares(path, steps, ss);
    forall i | 0 <= i < |steps| ensures a[i] == if i == j then AddCount(b[i], s.severity) else b[i] {
      var p := path + [steps[i]];
      assert p <= s.path <==> i == j by {
        assert p[|path|] == steps[i];
        assert s.path[..|path| + 1] == path + [s.path[|path|]];
      }
      FilterSnoc(Within(p), ss, s);
      TallySnoc(Filter(Within(p), ss), s);
      assert Filter(Within(p), ss) + [] == Filter(Within(p), ss);
    }
  }

  lemma {:induction false} SharesOfNothing(path: seq<Step>, steps: seq<Step>)
    ensures SumAll(Shares(path, steps, [])) == ZERO_COUNTS
  {
    hide Tally, SumCounts;
    if steps == [] {
      assert Shares(path, steps, []) == [];
    } else {
      SharesOfNothing(path, steps[1..]);
      assert Shares(path, steps, [])[1..] == Shares(path, steps[1..], []);
      NothingTallied();
      SumAssociative(ZERO_COUNTS, ZERO_COUNTS, ZERO_COUNTS);
    }
  }

  lemma {:induction false} SharesCoverAll(path: seq<Step>, steps: seq<Step>, ss: seq<Spot>)
    requires NoDuplicates(steps)
    requires forall s :: s in ss ==> LedBy(path, steps, s)
    ensures SumAll(Shares(path, steps, ss)) == Tally(ss)
  {
    hide Tally, AddCount, Shares;
    if ss == [] {
      SharesOfNothing(path, steps);
      assert Tally([]) == ZERO_COUNTS by { NothingTallied(); }
    } else {
      var n := |ss| - 1;
      SplitLast(ss);
      var s := ss[n];
      assert LedBy(path, steps, s);
      var j :| 0 <= j < |steps| && steps[j] == s.path[|path|];
      SharesCoverAll(path, steps, ss[..n]);
      SharesSnoc(path, steps, ss[..n], s, j);
      TallySnoc(ss[..n], s);
      SharesLength(path, steps, ss[..n]);
      SumBump(Shares(path, steps, ss[..n]), j, s.severity);
    }
  }

  lemma SharesLength(path: seq<Step>, steps: seq<Step>, ss: seq<Spot>)
    ensures |Shares(path, steps, ss)| == |steps|
  {
  }

  lemma NothingTallied()
    ensures Tally([]) == ZERO_COUNTS
  {
  }

  lemma {:induction false} WithinSplits(path: seq<Step>, ss: seq<Spot>)
    ensures Tally(Filter(Within(path), ss))
         == SumCounts(Tally(Filter(Exactly(path), ss)), Tally(Filter(Below(path), ss)))
  {
    hide Tally, AddCount, SumCounts;
    if ss == [] {
      NothingTallied();
      SumAssociative(ZERO_COUNTS, ZERO_COUNTS, ZERO_COUNTS);
    } else {
      var n := |ss| - 1;
      var t, s := ss[..n], ss[n];
      SplitLast(ss);
      WithinSplits(path, t);
      TallyStep(Within(path), t, s);
      TallyStep(Exactly(path), t, s);
      TallyStep(Below(path), t, s);
      assert path <= s.path <==> path == s.path || path < s.path;
      AddToSum(Tally(Filter(Exactly(path), t)), Tally(Filter(Below(path), t)), s.severity);
      AddToSum(Tally(Filter(Below(path), t)), Tally(Filter(Exactly(path), t)), s.severity);
    }
  }

  lemma TallyStep(p: Spot -> bool, ss: seq<Spot>, s: Spot)
    ensures Tally(Filter(p, ss + [s])) == if p(s) then AddCount(Tally(Filter(p, ss)), s.severity) else Tally(Filter(p, ss))
  {
    hide Tally;
    FilterStep(p, ss, s);
    TallySnoc(Filter(p, ss), s);
  }

  /** Narrowing an already narrowed list to a longer path. */
  lemma {:induction false} BelowThenWithin(path: seq<Step>, st: Step, ss: seq<Spot>)
    ensures Filter(Within(path + [st]), Filter(Below(path), ss)) == Filter(Within(path + [st]), ss)
  {
    if ss != [] {
      var n := |ss| - 1;
      SplitLast(ss);
      BelowThenWithin(path, st, ss[..n]);
      FilterStep(Below(path), ss[..n], ss[n]);
      FilterStep(Within(path + [st]), Filter(Below(path), ss[..n]), ss[n]);
      FilterStep(Within(path + [st]), ss[..n], ss[n]);
      LongerPath(path, st, ss[n]);
    }
  }

  lemma LongerPath(path: seq<Step>, st: Step, s: Spot)
    ensures path + [st] <= s.path ==> path < s.path
  {
    if path + [st] <= s.path {
      assert path <= path + [st];
      assert s.path[..|path|] == path;
    }
  }

  lemma NextStepsLead(path: seq<Step>, ss: seq<Spot>)
    ensures forall s :: s in Filter(Below(path), ss) ==> LedBy(path, NextSteps(path, ss), s)
  {
    hide Filter, Distinct;
    var below := Filter(Below(path), ss);
    forall s | s in below ensures LedBy(path, NextSteps(path, ss), s) {
      var i :| 0 <= i < |below| && below[i] == s;
      assert MapSeq(StepAt(|path|), below)[i] == s.path[|path|];
    }
  }

  lemma {:induction false} TotalsAsSum(ns: seq<Node>, cs: seq<Counts>)
    requires |ns| == |cs| && forall i :: 0 <= i < |ns| ==> TotalOf(ns[i]) == cs[i]
    ensures TotalOfAll(ns) == SumAll(cs)
  {
    hide TotalOf, SumCounts;
    if ns != [] {
      TotalsAsSum(ns[1..], cs[1..]);
    }
  }

  lemma SharesAfterNarrowing(path: seq<Step>, steps: seq<Step>, ss: seq<Spot>)
    ensures Shares(path, steps, Filter(Below(path), ss)) == Shares(path, steps, ss)
  {
    hide Tally;
    forall i | 0 <= i < |steps| ensures Shares(path, steps, Filter(Below(path), ss))[i] == Shares(path, steps, ss)[i] {
      BelowThenWithin(path, steps[i], ss);
    }
  }

  /** The tree at a path totals exactly the findings placed at or below it. */
  lemma {:induction false} GrowTotal(plan: seq<RootInfo>, path: seq<Step>, spots: seq<Spot>)
    requires path != [] && AllShaped(spots)
    ensures TotalOf(Grow(plan, path, spots)) == Tally(Filter(Within(path), spots))
    decreases DEPTH - |path|
  {
    hide Grow, Tally, Filter, SumCounts, Shares, NextSteps, AllShaped;
    var g := Grow(plan, path, spots);
    GrowShape(plan, path, spots);
    WithinSplits(path, spots);
    NextStepsLead(path, spots);
    var steps := NextSteps(path, spots);
    var below := Filter(Below(path), spots);
    if |path| < DEPTH {
      SharesLength(path, steps, spots);
      forall i | 0 <= i < |steps| ensures TotalOf(g.children[i]) == Shares(path, steps, spots)[i] {
        GrowTotal(plan, path + [steps[i]], spots);
        ShareAt(path, steps, spots, i);
      }
      TotalsAsSum(g.children, Shares(path, steps, spots));
      SharesAfterNarrowing(path, steps, spots);
      NextStepsDistinct(path, spots);
      SharesCoverAll(path, steps, below);
    } else {
      NothingBelow(path, spots);
      NothingTallied();
      assert g.children == [];
    }
  }

  lemma ShareAt(path: seq<Step>, steps: seq<Step>, ss: seq<Spot>, i: nat)
    requires i < |steps|
    ensures |Shares(path, steps, ss)| == |steps|
    ensures Shares(path, steps, ss)[i] == Tally(Filter(Within(path + [steps[i]]), ss))
  {
  }

  lemma NextStepsDistinct(path: seq<Step>, ss: seq<Spot>)
    ensures NoDuplicates(NextSteps(path, ss))
  {
  }

  lemma NothingBelow(path: seq<Step>, spots: seq<Spot>)
    requires AllShaped(spots) && |path| >= DEPTH
    ensures Filter(Below(path), spots) == []
  {
    forall s | s in spots ensures !Below(path)(s) {
      assert Shaped(s.path);
    }
    FilterNone(Below(path), spots);
  }

  // ----- conservation -----

  function RootSteps(n: nat): seq<Step> { seq(n, i requires 0 <= i < n => AtRoot(i)) }

  lemma RootsCover(plan: seq<RootInfo>, fs: seq<Option<Finding>>)
    ensures var spots := Spots(plan, fs);
            forall s :: s in spots ==> LedBy([], RootSteps(RootCount(plan, spots)), s)
  {
    hide Filter, HostOf, Placeable;
    var spots := Spots(plan, fs);
    SpotsArePlaced(plan, fs);
    hide Spots;
    forall s | s in spots ensures LedBy([], RootSteps(RootCount(plan, spots)), s) {
      var host, port :| s.path == PathFor(plan, host, port);
      var i := RootIndex(plan, host);
      hide RootIndex;
      assert s.path[0] == AtRoot(i);
      if i == |plan| {
        assert [AtRoot(|plan|)] <= s.path;
        assert s in AnyUnplaced(plan, spots);
      }
      assert RootSteps(RootCount(plan, spots))[i] == AtRoot(i);
    }
  }

  lemma GrownRootsTotal(plan: seq<RootInfo>, fs: seq<Option<Finding>>)
    ensures TotalOfAll(GrownRoots(plan, Spots(plan, fs))) == Tally(Spots(plan, fs))
  {
    hide Grow, Tally, Filter, Shares, Spots, TotalOf;
    var spots := Spots(plan, fs);
    var roots := GrownRoots(plan, spots);
    var steps := RootSteps(RootCount(plan, spots));
    SpotsShaped(plan, fs);
    RootsCover(plan, fs);
    SharesLength([], steps, spots);
    forall i | 0 <= i < |roots| ensures TotalOf(roots[i]) == Shares([], steps, spots)[i] {
      GrowTotal(plan, [AtRoot(i)], spots);
      ShareAt([], steps, spots, i);
      assert [] + [steps[i]] == [AtRoot(i)];
    }
    TotalsAsSum(roots, Shares([], steps, spots));
    SharesCoverAll([], steps, spots);
  }

  /** The totals written on the drawn roots, summed. */
  function RootTotals(ns: seq<Node>): Counts {
    if ns == [] then ZERO_COUNTS else SumCounts(ns[0].total, RootTotals(ns[1..]))
  }

  lemma {:induction false} DrawnTotals(ns: seq<Node>)
    ensures RootTotals(DrawnAll(ns)) == TotalOfAll(ns)
  {
    hide TotalOf, SumCounts, Drawn, DrawnAll;
    if ns != [] {
      DrawnTotals(ns[1..]);
      assert DrawnAll(ns)[1..] == DrawnAll(ns[1..]);
      DrawnShape(ns[0]);
      TrimKeepsTotal(ns[0]);
    }
  }

  /** The severities of the findings that have a host key. */
  function PlaceableSeverities(fs: seq<Option<Finding>>): multiset<Severity> {
    multiset(MapSeq((f: Option<Finding>) => if f.Some? then f.value.severity else NOTHING, Filter(Placeable, fs)))
  }

  lemma SpotSeverities(plan: seq<RootInfo>, fs: seq<Option<Finding>>)
    ensures multiset(MapSeq(SeverityOf, Spots(plan, fs))) == PlaceableSeverities(fs)
  {
    hide Filter, HostOf, PathFor;
    var ps := Filter(Placeable, fs);
    assert MapSeq(SeverityOf, Spots(plan, fs))
        == MapSeq((f: Option<Finding>) => if f.Some? then f.value.severity else NOTHING, ps);
  }

  /** Class by class, the drawn roots account for exactly the findings with a host key and a known
      severity: nothing is dropped, nothing is counted twice. */
  lemma RootsAccountForEveryFinding(job: Option<Job>, fs: seq<Option<Finding>>)
    ensures RootTotals(Build(job, fs).roots) == TallyOf(PlaceableSeverities(fs))
  {
    hide DeclaredTargets, PlanOf, Spots, SortNodes, NodeLeq, HostPaths, ServicePaths, AnyUnplaced, TallyOf, PlaceableSeverities;
    var plan := PlanOf(DeclaredTargets(job));
    var spots := Spots(plan, fs);
    var grown := GrownRoots(plan, spots);
    DrawnTotals(SortedRoots(plan, spots));
    TotalOfPermutation(NormaliseAll(grown), SortedRoots(plan, spots));
    NormaliseAllKeepsTotal(grown);
    GrownRootsTotal(plan, fs);
    SpotSeverities(plan, fs);
  }

  /** Every drawn root carries the roll-up of its unfolded tree, and so does every kept node below it. */
  lemma EveryRootIsRolledUp(job: Option<Job>, fs: seq<Option<Finding>>)
    ensures var plan := PlanOf(DeclaredTargets(job));
            var whole := SortedRoots(plan, Spots(plan, fs));
            var g := Build(job, fs);
            && |g.roots| == |whole|
            && forall i :: 0 <= i < |whole| ==> Draws(g.roots[i], whole[i])
  {
    hide DeclaredTargets, PlanOf, Spots, SortedRoots, Drawn, HostPaths, ServicePaths, AnyUnplaced, Draws;
    var plan := PlanOf(DeclaredTargets(job));
    var whole := SortedRoots(plan, Spots(plan, fs));
    forall i | 0 <= i < |whole| ensures Draws(Drawn(whole[i]), whole[i]) {
      FoldingLosesNothing(whole[i]);
    }
  }
}
