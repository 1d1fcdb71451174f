/** What the attack-surface graph promises: the same picture for every order of the findings, nothing lost
    to folding, and a well-formed tree. */
module SurfaceProofs {
  import opened Text
  import opened Ordering
  import opened Findings
  import opened Records
  import opened SurfaceTree
  import opened SurfaceBuild

  // ----- independence of the order of findings -----

  lemma TallyPermutes(a: seq<Spot>, b: seq<Spot>)
    requires multiset(a) == multiset(b)
    ensures Tally(a) == Tally(b)
  {
    MapPermutes(SeverityOf, a, b);
  }

  lemma NextStepsPermute(path: seq<Step>, a: seq<Spot>, b: seq<Spot>)
    requires multiset(a) == multiset(b)
    ensures multiset(NextSteps(path, a)) == multiset(NextSteps(path, b))
  {
    hide Distinct, MapSeq, Filter;
    FilterPermutes(Below(path), a, b);
    MapPermutes(StepAt(|path|), Filter(Below(path), a), Filter(Below(path), b));
    SameElements(MapSeq(StepAt(|path|), Filter(Below(path), a)), MapSeq(StepAt(|path|), Filter(Below(path), b)));
    SameSetSameMultiset(NextSteps(path, a), NextSteps(path, b));
  }

  /** A valid path: a root, then perhaps a host, then perhaps an observed port. */
  predicate Shaped(path: seq<Step>) {
    && 1 <= |path| <= DEPTH && path[0].AtRoot?
    && (|path| >= 2 ==> path[1].AtHost? || (path[1].AtPort? && path[1].port > 0 && |path| == 2))
    && (|path| == 3 ==> path[1].AtHost? && path[2].AtPort? && path[2].port > 0)
  }

  predicate AllShaped(spots: seq<Spot>) { forall s :: s in spots ==> Shaped(s.path) }

  lemma PathForShaped(plan: seq<RootInfo>, host: string, port: int)
    ensures Shaped(PathFor(plan, host, port))
  {
    hide RootIndex, RootAt;
  }

  lemma SpotsShaped(plan: seq<RootInfo>, fs: seq<Option<Finding>>)
    ensures AllShaped(Spots(plan, fs))
  {
    hide PathFor, Spots, Shaped;
    SpotsArePlaced(plan, fs);
    forall s | s in Spots(plan, fs) ensures Shaped(s.path) {
      var host, port :| s.path == PathFor(plan, host, port);
      PathForShaped(plan, host, port);
    }
  }

  /** The steps below a shaped path are those of some finding placed there. */
  lemma NextStepOfSpot(path: seq<Step>, spots: seq<Spot>, st: Step)
    requires st in NextSteps(path, spots)
    ensures exists s :: s in spots && path + [st] <= s.path
  {
    hide Distinct, Filter;
    var below := Filter(Below(path), spots);
    var i :| 0 <= i < |below| && MapSeq(StepAt(|path|), below)[i] == st;
    assert below[i] in below;
    var s := below[i];
    assert s.path[..|path| + 1] == s.path[..|path|] + [s.path[|path|]];
  }

  lemma NextStepShaped(path: seq<Step>, spots: seq<Spot>, st: Step)
    requires AllShaped(spots) && path != []
    requires st in NextSteps(path, spots)
    ensures Shaped(path + [st]) && |path| < DEPTH
  {
    hide NextSteps;
    NextStepOfSpot(path, spots, st);
    var s :| s in spots && path + [st] <= s.path;
    assert Shaped(s.path);
    assert forall k :: 0 <= k <= |path| ==> s.path[k] == (path + [st])[k];
  }

  /** Siblings that agree on port and caption are reached by the same step. */
  lemma SiblingsDiffer(plan: seq<RootInfo>, path: seq<Step>, a: Step, b: Step)
    requires path != [] && Shaped(path + [a]) && Shaped(path + [b])
    requires Blank(plan, path + [a]).port == Blank(plan, path + [b]).port
    requires Blank(plan, path + [a]).caption == Blank(plan, path + [b]).caption
    ensures a == b
  {
    hide NodeId, Itoa;
    assert (path + [a])[|path|] == a && (path + [b])[|path|] == b;
  }

  /** The finished node for the child a step leads to. */
  function ChildAt(plan: seq<RootInfo>, path: seq<Step>, spots: seq<Spot>): Step -> Node {
    (st: Step) => Normalise(Grow(plan, path + [st], spots))
  }

  lemma GrowShape(plan: seq<RootInfo>, path: seq<Step>, spots: seq<Spot>)
    requires path != []
    ensures var g := Grow(plan, path, spots);
            var here := Filter(Exactly(path), spots);
            && g == Blank(plan, path).(own := Tally(here), findingIds := MapSeq(IdOf, here), children := g.children)
            && |g.children| == (if |path| < DEPTH then |NextSteps(path, spots)| else 0)
            && forall i :: 0 <= i < |g.children| ==> g.children[i] == Grow(plan, path + [NextSteps(path, spots)[i]], spots)
  {
    hide Blank, NextSteps, Tally;
  }

  lemma GrowNormalised(plan: seq<RootInfo>, path: seq<Step>, spots: seq<Spot>)
    requires path != [] && |path| < DEPTH
    ensures NormaliseAll(Grow(plan, path, spots).children) == MapSeq(ChildAt(plan, path, spots), NextSteps(path, spots))
  {
    GrowShape(plan, path, spots);
    hide Grow, Normalise, NextSteps;
  }

  lemma ChildrenDistinguished(plan: seq<RootInfo>, path: seq<Step>, spots: seq<Spot>)
    requires path != [] && AllShaped(spots)
    ensures Antisymmetric(NodeLeq, MapSeq(ChildAt(plan, path, spots), NextSteps(path, spots)))
  {
    hide NextSteps, Grow, Normalise, NodeLeq, Blank, Shaped;
    var steps := NextSteps(path, spots);
    var f := ChildAt(plan, path, spots);
    var cs := MapSeq(f, steps);
    NodeOrder();
    forall x, y | x in cs && y in cs && NodeLeq(x, y) && NodeLeq(y, x) ensures x == y {
      var i :| 0 <= i < |cs| && cs[i] == x;
      var j :| 0 <= j < |cs| && cs[j] == y;
      NextStepShaped(path, spots, steps[i]);
      NextStepShaped(path, spots, steps[j]);
      ChildFace(plan, path + [steps[i]], spots);
      ChildFace(plan, path + [steps[j]], spots);
      SiblingsDiffer(plan, path, steps[i], steps[j]);
    }
  }

  lemma ChildFace(plan: seq<RootInfo>, path: seq<Step>, spots: seq<Spot>)
    requires path != []
    ensures Normalise(Grow(plan, path, spots)).port == Blank(plan, path).port
    ensures Normalise(Grow(plan, path, spots)).caption == Blank(plan, path).caption
    ensures Normalise(Grow(plan, path, spots)).id == Blank(plan, path).id
  {
    GrowShape(plan, path, spots);
    hide Grow, Blank, NormaliseAll;
  }

  lemma {:induction false} TreeIgnoresOrder(plan: seq<RootInfo>, path: seq<Step>, a: seq<Spot>, b: seq<Spot>)
    requires path != [] && multiset(a) == multiset(b) && AllShaped(a)
    ensures Normalise(Grow(plan, path, a)) == Normalise(Grow(plan, path, b))
    decreases DEPTH - |path|
  {
    hide Grow, Blank, NextSteps, Tally, NormaliseAll, SortNodes, AllShaped;
    NodeIgnoresOrder(plan, path, a, b);
    if |path| < DEPTH {
      var sa, sb := NextSteps(path, a), NextSteps(path, b);
      NextStepsPermute(path, a, b);
      SameElements(sa, sb);
      forall st ensures ChildAt(plan, path, a)(st) == ChildAt(plan, path, b)(st) {
        TreeIgnoresOrder(plan, path + [st], a, b);
      }
      GrowNormalised(plan, path, a);
      GrowNormalised(plan, path, b);
      SortedChildrenAgree(plan, path, a, b);
    } else {
      GrowShape(plan, path, a);
      GrowShape(plan, path, b);
      assert Grow(plan, path, a).children == [] == Grow(plan, path, b).children;
    }
  }

  lemma NodeIgnoresOrder(plan: seq<RootInfo>, path: seq<Step>, a: seq<Spot>, b: seq<Spot>)
    requires path != [] && multiset(a) == multiset(b)
    ensures var x, y := Grow(plan, path, a), Grow(plan, path, b);
            && x == y.(findingIds := x.findingIds, children := x.children)
            && SortStrings(x.findingIds) == SortStrings(y.findingIds)
  {
    GrowShape(plan, path, a);
    GrowShape(plan, path, b);
    hide Grow, Blank, Tally, NextSteps, MapSeq, SortBy, StrLeq;
    var ha, hb := Filter(Exactly(path), a), Filter(Exactly(path), b);
    FilterPermutes(Exactly(path), a, b);
    TallyPermutes(ha, hb);
    MapPermutes(IdOf, ha, hb);
    StrOrder();
    SortOfPermutation(StrLeq, MapSeq(IdOf, ha), MapSeq(IdOf, hb));
  }

  lemma SortedChildrenAgree(plan: seq<RootInfo>, path: seq<Step>, a: seq<Spot>, b: seq<Spot>)
    requires path != [] && AllShaped(a)
    requires multiset(NextSteps(path, a)) == multiset(NextSteps(path, b))
    requires forall st :: ChildAt(plan, path, a)(st) == ChildAt(plan, path, b)(st)
    ensures SortNodes(MapSeq(ChildAt(plan, path, a), NextSteps(path, a)))
         == SortNodes(MapSeq(ChildAt(plan, path, b), NextSteps(path, b)))
  {
    hide ChildAt, NextSteps, NodeLeq, AllShaped;
    var f, g := ChildAt(plan, path, a), ChildAt(plan, path, b);
    var sa, sb := NextSteps(path, a), NextSteps(path, b);
    MapPermutes(f, sa, sb);
    assert MapSeq(f, sb) == MapSeq(g, sb);
    ChildrenDistinguished(plan, path, a);
    NodeOrder();
    SortOfPermutation(NodeLeq, MapSeq(f, sa), MapSeq(f, sb));
  }

  lemma SpotsPermute(plan: seq<RootInfo>, fs: seq<Option<Finding>>, gs: seq<Option<Finding>>)
    requires multiset(fs) == multiset(gs)
    ensures multiset(Spots(plan, fs)) == multiset(Spots(plan, gs))
  {
    hide Filter, MapSeq;
    FilterPermutes(Placeable, fs, gs);
    MapPermutes(Place(plan), Filter(Placeable, fs), Filter(Placeable, gs));
  }

  lemma RootsIgnoreOrder(plan: seq<RootInfo>, a: seq<Spot>, b: seq<Spot>)
    requires multiset(a) == multiset(b) && AllShaped(a)
    ensures SortedRoots(plan, a) == SortedRoots(plan, b)
    ensures |AnyUnplaced(plan, a)| == |AnyUnplaced(plan, b)|
  {
    hide Grow, Normalise, Filter, AllShaped, SortNodes;
    FilterPermutes(Within([AtRoot(|plan|)]), a, b);
    SameElements(AnyUnplaced(plan, a), AnyUnplaced(plan, b));
    forall i | 0 <= i < RootCount(plan, a)
      ensures Normalise(Grow(plan, [AtRoot(i)], a)) == Normalise(Grow(plan, [AtRoot(i)], b)) {
      TreeIgnoresOrder(plan, [AtRoot(i)], a, b);
    }
    assert NormaliseAll(GrownRoots(plan, a)) == NormaliseAll(GrownRoots(plan, b));
  }

  lemma PathSetsIgnoreOrder(a: seq<Spot>, b: seq<Spot>)
    requires multiset(a) == multiset(b)
    ensures HostPaths(a) == HostPaths(b) && ServicePaths(a) == ServicePaths(b)
  {
    SameElements(a, b);
  }

  /** The same job and the same findings give the same graph, whatever order the findings come in. */
  lemma BuildIgnoresOrder(job: Option<Job>, fs: seq<Option<Finding>>, gs: seq<Option<Finding>>)
    requires multiset(fs) == multiset(gs)
    ensures Build(job, fs) == Build(job, gs)
  {
    hide DeclaredTargets, PlanOf, Spots, SortedRoots, HostPaths, ServicePaths, AnyUnplaced, AllShaped;
    var plan := PlanOf(DeclaredTargets(job));
    SpotsPermute(plan, fs, gs);
    SpotsShaped(plan, fs);
    RootsIgnoreOrder(plan, Spots(plan, fs), Spots(plan, gs));
    PathSetsIgnoreOrder(Spots(plan, fs), Spots(plan, gs));
  }
}
