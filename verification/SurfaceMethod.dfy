/** internal/surface/surface.go: the whole of `Build` in the source's own form, proved to draw exactly the graph
    of `SurfaceBuild.Build`. */
module SurfaceMethod {
  import opened Text
  import opened Ordering
  import opened Findings
  import opened Records
  import opened SurfaceTree
  import opened SurfaceBuild
  import opened SurfaceProofs
  import opened SurfaceShape
  import opened SurfaceKeys
  import opened SurfaceHeap
  import opened SurfaceForest
  import opened SurfacePlacing

  // ----- between two findings -----

  ghost predicate Rooted(byKey: map<string, Vertex>, at: Forest, plan: seq<RootInfo>) {
    forall i :: 0 <= i < |plan| ==> plan[i].key in byKey && RootPath(i) in at && byKey[plan[i].key] == at[RootPath(i)]
  }

  /** What holds before and after each finding. */
  ghost predicate Building(b: Board, byKey: map<string, Vertex>, at: Forest, plan: seq<RootInfo>, ss: seq<Spot>)
    reads at.Values
  {
    && Grown(at, plan, ss, ss) && Tracks(b, at, plan) && Rooted(byKey, at, plan)
    && AllPlaced(plan, ss) && NoDuplicates(Keys(plan))
    && b.unplacedCount == |AnyUnplaced(plan, ss)|
  }

  function SpotFor(plan: seq<RootInfo>, f: Finding): Spot {
    Spot(PathFor(plan, HostOf(f.target), f.port), f.severity, f.id)
  }

  lemma SpotIsPlaced(plan: seq<RootInfo>, ss: seq<Spot>, f: Finding)
    requires AllPlaced(plan, ss)
    ensures Places(plan, SpotFor(plan, f).path) && AllPlaced(plan, ss + [SpotFor(plan, f)])
  {
    hide PathFor, HostOf;
    assert SpotFor(plan, f).path == PathFor(plan, HostOf(f.target), f.port);
  }

  lemma UnplacedSnoc(plan: seq<RootInfo>, ss: seq<Spot>, s: Spot, i: nat)
    requires s.path != [] && s.path[..1] == RootPath(i)
    ensures |AnyUnplaced(plan, ss + [s])| == |AnyUnplaced(plan, ss)| + if i == |plan| then 1 else 0
  {
    FilterStep(Within([AtRoot(|plan|)]), ss, s);
    assert [AtRoot(|plan|)] <= s.path <==> s.path[..1] == RootPath(|plan|);
    assert s.path[..1] == RootPath(|plan|) <==> i == |plan| by { assert RootPath(i)[0] == AtRoot(i); }
  }

  lemma WalkStarts(b: Board, byKey: map<string, Vertex>, at: Forest, plan: seq<RootInfo>, ss: seq<Spot>)
    requires Building(b, byKey, at, plan, ss)
    ensures Grown(at, plan, ss, ss) && Tracks(b, at, plan) && AllPlaced(plan, ss) && NoDuplicates(Keys(plan))
    ensures forall i :: 0 <= i < |plan| ==> plan[i].key in byKey && RootPath(i) in at && byKey[plan[i].key] == at[RootPath(i)]
  {
    hide Grown, Tracks, AllPlaced;
  }

  lemma WalkEnds(b: Board, at: Forest, plan: seq<RootInfo>, ss: seq<Spot>, s: Spot)
    requires s.path != [] && Walking(b, at, plan, ss, s, |s.path|)
    ensures Grown(at, plan, ss, ss + [s]) && Tracks(b, at, plan) && s.path in at
  {
    hide Grown, Tracks;
    CutPath(s, |s.path|);
    assert s.path[..|s.path|] == s.path;
  }

  lemma StillRooted(byKey: map<string, Vertex>, at: Forest, at': Forest, plan: seq<RootInfo>)
    requires Rooted(byKey, at, plan) && Extends(at, at')
    ensures Rooted(byKey, at', plan)
  {
  }

  /** One turn of the loop over the findings. */
  method PlaceOne(b: Board, rootKeys: seq<string>, byKey: map<string, Vertex>, f: Finding,
                  ghost at: Forest, ghost plan: seq<RootInfo>, ghost ss: seq<Spot>)
    returns (b': Board, ghost at': Forest)
    requires Building(b, byKey, at, plan, ss) && rootKeys == SortBy(LongerFirst, Keys(plan))
    modifies at.Values
    ensures Building(b', byKey, at', plan, ss + [SpotFor(plan, f)])
    ensures forall q :: q in at' ==> at'[q] in at.Values || fresh(at'[q])
  {
    hide Grown, Tracks, AllPlaced, Places, Holder, PathFor, HostOf, SortBy, AnyUnplaced, Walking, Rooted, Cut;
    var host := HostOf(f.target);
    ghost var s := SpotFor(plan, f);
    HolderSteps(plan, host, f.port);
    SpotIsPlaced(plan, ss, f);
    WalkStarts(b, byKey, at, plan, ss);
    assert Rooted(byKey, at, plan);
    var root, b1;
    ghost var at1;
    root, b1, at1 := ChooseRoot(b, rootKeys, byKey, host, at, plan, ss, s);
    WalkHere(b1, at1, plan, ss, s, 1);
    var holder, b2;
    ghost var at2;
    holder, b2, at2 := PlaceHost(b1, root, host, f.port, at1, plan, ss, s);
    WalkHere(b2, at2, plan, ss, s, |Holder(plan, host)|);
    var target;
    target, b', at' := PlaceService(b2, holder, root, host, f.port, at2, plan, ss, s);
    WalkEnds(b', at', plan, ss, s);
    Record(at', plan, ss, s, target, f.severity, f.id);
    UnplacedSnoc(plan, ss, s, RootIndex(plan, host));
    StillRooted(byKey, at, at', plan);
  }

  lemma WalkHere(b: Board, at: Forest, plan: seq<RootInfo>, ss: seq<Spot>, s: Spot, k: nat)
    requires 1 <= k <= |s.path| && Walking(b, at, plan, ss, s, k)
    ensures s.path[..k] in at
  {
    hide Grown, Tracks;
  }

  // ----- the declared roots -----

  ghost predicate Planted(roots: seq<Vertex>, plan: seq<RootInfo>)
    reads roots
  {
    && |roots| == |plan|
    && (forall i :: 0 <= i < |roots| ==>
          roots[i].node == Blank(plan, RootPath(i)) && roots[i].children == [] && roots[i].repr == {roots[i]})
    && forall i, j :: 0 <= i < j < |roots| ==> roots[i] != roots[j]
  }

  lemma BlankRoot(plan: seq<RootInfo>, i: nat)
    requires i < |plan|
    ensures Blank(plan, RootPath(i))
            == Node("root:" + plan[i].key, plan[i].caption, RootKind, "", 0, NOTHING, ZERO_COUNTS, ZERO_COUNTS, [],
                    plan[i].skipped, plan[i].reason, 0, [])
  {
    var p := RootPath(i);
    assert p[..0] == [] && p[0] == AtRoot(i);
  }

  lemma PlantedSnoc(roots: seq<Vertex>, plan: seq<RootInfo>, n: Vertex, r: RootInfo)
    requires Planted(roots, plan) && n !in roots
    requires n.children == [] && n.repr == {n} && n.node == Blank(plan + [r], RootPath(|plan|))
    ensures Planted(roots + [n], plan + [r])
  {
    hide Blank;
    forall i | 0 <= i < |plan| ensures Blank(plan + [r], RootPath(i)) == Blank(plan, RootPath(i)) {
      BlankRoot(plan, i);
      BlankRoot(plan + [r], i);
    }
  }

  lemma PlanOfSnoc(ds: seq<TargetOutcome>, d: TargetOutcome)
    ensures var plan, key := PlanOf(ds), HostOf(d.target);
            PlanOf(ds + [d]) == if key == "" || key in Keys(plan) then plan
                                else plan + [RootInfo(key, d.target, !d.processed, d.reason)]
  {
    hide HostOf;
    assert (ds + [d])[..|ds|] == ds;
  }

  /** The first loop of `Build`: one root for each non-empty key. */
  method PlantRoots(ds: seq<TargetOutcome>)
    returns (roots: seq<Vertex>, byKey: map<string, Vertex>, keys: seq<string>, skipped: nat)
    ensures Planted(roots, PlanOf(ds)) && forall r :: r in roots ==> fresh(r)
    ensures keys == Keys(PlanOf(ds)) && skipped == |Filter(IsSkipped, PlanOf(ds))|
    ensures forall i :: 0 <= i < |roots| ==> keys[i] in byKey && byKey[keys[i]] == roots[i]
  {
    hide HostOf, PlanOf, Blank, NoDuplicates, Planted, Filter, Keys;
    ghost var plan: seq<RootInfo> := [];
    roots, byKey, keys, skipped := [], map[], [], 0;
    NoPlan();
    for i := 0 to |ds|
      invariant plan == PlanOf(ds[..i]) && Planted(roots, plan)
      invariant forall r :: r in roots ==> fresh(r)
      invariant keys == Keys(plan) && |keys| == |roots| == |plan| && skipped == |Filter(IsSkipped, plan)|
      invariant forall k :: k in byKey <==> k in keys
      invariant forall j :: 0 <= j < |roots| ==> keys[j] in byKey && byKey[keys[j]] == roots[j]
    {
      TakeNext(ds, i);
      PlanOfSnoc(ds[..i], ds[i]);
      var d := ds[i];
      var key := HostOf(d.target);
      if key == "" {
        continue;
      }
      if key in byKey {
        continue;
      }
      ghost var r := RootInfo(key, d.target, !d.processed, d.reason);
      var n := new Vertex(Node("root:" + key, d.target, RootKind, "", 0, NOTHING, ZERO_COUNTS, ZERO_COUNTS, [],
                               !d.processed, d.reason, 0, []));
      if !d.processed {
        skipped := skipped + 1;
      }
      BlankRoot(plan + [r], |plan|);
      PlantedSnoc(roots, plan, n, r);
      FilterStep(IsSkipped, plan, r);
      KeysSnoc(plan, r);
      byKey := byKey[key := n];
      roots := roots + [n];
      keys := keys + [key];
      plan := plan + [r];
    }
    assert ds[..|ds|] == ds;
  }

  lemma NoPlan()
    ensures PlanOf([]) == [] && Planted([], []) && Keys([]) == [] && Filter(IsSkipped, []) == []
  {
  }

  lemma KeysSnoc(plan: seq<RootInfo>, r: RootInfo)
    ensures Keys(plan + [r]) == Keys(plan) + [r.key]
  {
  }

  function RootPaths(n: nat): set<Path> {
    set i | 0 <= i < n :: RootPath(i)
  }

  lemma OnlyRootPaths(n: nat, p: Path)
    ensures p in RootPaths(n) <==> |p| == 1 && p[0].AtRoot? && p[0].index < n
    ensures |p| == 1 && p[0].AtRoot? ==> p == RootPath(p[0].index)
  {
    if |p| == 1 && p[0].AtRoot? {
      assert p == RootPath(p[0].index);
    }
  }

  ghost function ForestOf(roots: seq<Vertex>): Forest {
    map p: Path | p in RootPaths(|roots|) :: roots[RootNumber(p, |roots|)]
  }

  function RootNumber(p: Path, n: nat): (i: nat)
    requires p in RootPaths(n)
    ensures i < n && p == RootPath(i)
  {
    p[0].index
  }

  lemma ForestAt(roots: seq<Vertex>, p: Path)
    ensures p in ForestOf(roots) <==> |p| == 1 && p[0].AtRoot? && p[0].index < |roots|
    ensures p in ForestOf(roots) ==> p == RootPath(p[0].index) && ForestOf(roots)[p] == roots[p[0].index]
  {
    OnlyRootPaths(|roots|, p);
  }

  lemma PlantedRight(roots: seq<Vertex>, plan: seq<RootInfo>, p: Path)
    requires Planted(roots, plan) && p in ForestOf(roots)
    ensures Right(ForestOf(roots), plan, [], [], p)
  {
    hide Blank, Planted, ForestOf;
    var at := ForestOf(roots);
    ForestAt(roots, p);
    var i := p[0].index;
    PlantedAt(roots, plan, i);
    BlankFace(plan, p, []);
    NothingThere([], p);
    NoKin(roots[i], at, p, []);
    forall q | q in at && p <= q ensures q == p {
      ForestAt(roots, q);
    }
    assert Footprint(at, p) == {at[p]};
  }

  lemma PlantedAt(roots: seq<Vertex>, plan: seq<RootInfo>, i: nat)
    requires Planted(roots, plan) && i < |roots|
    ensures roots[i].node == Blank(plan, RootPath(i)) && roots[i].children == [] && roots[i].repr == {roots[i]}
  {
    hide Blank;
  }

  lemma PlantedApart(roots: seq<Vertex>, plan: seq<RootInfo>)
    requires Planted(roots, plan)
    ensures forall i, j :: 0 <= i < j < |roots| ==> roots[i] != roots[j]
  {
    hide Blank;
  }

  lemma PlantedGrown(roots: seq<Vertex>, plan: seq<RootInfo>)
    requires Planted(roots, plan)
    ensures Grown(ForestOf(roots), plan, [], [])
  {
    hide Blank, Right, ForestOf, Planted;
    var at := ForestOf(roots);
    PlantedApart(roots, plan);
    assert |roots| == |plan| by { PlantedCount(roots, plan); }
    forall p ensures p in at <==> Present(plan, p, []) {
      ForestAt(roots, p);
    }
    forall p | p in at ensures Right(at, plan, [], [], p) {
      PlantedRight(roots, plan, p);
    }
    forall p: Path, q: Path | p in at && q in at && at[p] == at[q] ensures p == q {
      ForestAt(roots, p);
      ForestAt(roots, q);
    }
  }

  lemma PlantedCount(roots: seq<Vertex>, plan: seq<RootInfo>)
    requires Planted(roots, plan)
    ensures |roots| == |plan|
  {
    hide Blank;
  }

  lemma PlantedTracks(roots: seq<Vertex>, plan: seq<RootInfo>)
    requires |roots| == |plan|
    ensures Tracks(Board(roots, None, map[], map[], 0, 0, 0), ForestOf(roots), plan)
  {
    hide ForestOf, PathKey;
    var at := ForestOf(roots);
    forall p | p in at ensures !IsHostStep(p) && !IsPortStep(p) {
      ForestAt(roots, p);
    }
    assert OfKind(at, IsHostStep) == {} && OfKind(at, IsPortStep) == {};
    ForestAt(roots, RootPath(|plan|));
    forall i | 0 <= i < |roots| ensures RootPath(i) in at && roots[i] == at[RootPath(i)] {
      ForestAt(roots, RootPath(i));
    }
  }

  /** Before the first finding: the planted roots are a forest, and the maps over it are empty. */
  lemma PlantedIsBuilding(roots: seq<Vertex>, plan: seq<RootInfo>, byKey: map<string, Vertex>)
    requires Planted(roots, plan) && NoDuplicates(Keys(plan))
    requires forall i :: 0 <= i < |roots| ==> |roots| == |plan| && plan[i].key in byKey && byKey[plan[i].key] == roots[i]
    ensures Building(Board(roots, None, map[], map[], 0, 0, 0), byKey, ForestOf(roots), plan, [])
  {
    hide Grown, Tracks, ForestOf, Planted, NoDuplicates;
    PlantedCount(roots, plan);
    PlantedGrown(roots, plan);
    PlantedTracks(roots, plan);
    forall i | 0 <= i < |plan| ensures RootPath(i) in ForestOf(roots) && ForestOf(roots)[RootPath(i)] == roots[i] {
      ForestAt(roots, RootPath(i));
    }
    assert AnyUnplaced(plan, []) == [];
  }

  // ----- the loop over the findings -----

  lemma SpotsSnoc(plan: seq<RootInfo>, fs: seq<Option<Finding>>, f: Option<Finding>)
    ensures Spots(plan, fs + [f]) == if Placeable(f) then Spots(plan, fs) + [SpotFor(plan, f.value)] else Spots(plan, fs)
  {
    hide HostOf, PathFor;
    FilterStep(Placeable, fs, f);
    if Placeable(f) {
      MapSnoc(Place(plan), Filter(Placeable, fs), f);
    }
  }

  method PlaceAll(b0: Board, rootKeys: seq<string>, byKey: map<string, Vertex>, fs: seq<Option<Finding>>,
                  ghost at0: Forest, ghost plan: seq<RootInfo>)
    returns (b: Board, ghost at: Forest)
    requires Building(b0, byKey, at0, plan, []) && rootKeys == SortBy(LongerFirst, Keys(plan))
    modifies at0.Values
    ensures Building(b, byKey, at, plan, Spots(plan, fs))
    ensures forall q :: q in at ==> at[q] in at0.Values || fresh(at[q])
  {
    hide Building, Spots, HostOf, SortBy;
    b, at := b0, at0;
    assert Spots(plan, fs[..0]) == [] by { NoSpots(plan); assert fs[..0] == []; }
    for i := 0 to |fs|
      invariant Building(b, byKey, at, plan, Spots(plan, fs[..i]))
      invariant forall q :: q in at ==> at[q] in at0.Values || fresh(at[q])
    {
      TakeNext(fs, i);
      SpotsSnoc(plan, fs[..i], fs[i]);
      if fs[i].None? {
        continue;
      }
      if HostOf(fs[i].value.target) == "" {
        continue;
      }
      b, at := PlaceOne(b, rootKeys, byKey, fs[i].value, at, plan, Spots(plan, fs[..i]));
    }
    assert fs[..|fs|] == fs;
  }

  lemma NoSpots(plan: seq<RootInfo>)
    ensures Spots(plan, []) == []
  {
  }

  // ----- the finished forest -----

  lemma KindsAreCounted(b: Board, byKey: map<string, Vertex>, at: Forest, plan: seq<RootInfo>, fs: seq<Option<Finding>>)
    requires Building(b, byKey, at, plan, Spots(plan, fs))
    ensures b.hostCount == |HostPaths(Spots(plan, fs))| && b.serviceCount == |ServicePaths(Spots(plan, fs))|
  {
    hide Indexes, RootsListed, Right, Spots, AnyUnplaced, AllPlaced;
    var ss := Spots(plan, fs);
    SpotsShaped(plan, fs);
    forall q ensures q in OfKind(at, IsHostStep) <==> q in HostPaths(ss) {
      HostsPresent(plan, ss, q);
    }
    assert OfKind(at, IsHostStep) == HostPaths(ss);
    forall q ensures q in OfKind(at, IsPortStep) <==> q in ServicePaths(ss) {
      PortsPresent(plan, ss, q);
    }
    assert OfKind(at, IsPortStep) == ServicePaths(ss);
  }

  lemma HostsPresent(plan: seq<RootInfo>, ss: seq<Spot>, q: Path)
    requires AllShaped(ss)
    ensures Present(plan, q, ss) && IsHostStep(q) <==> q in HostPaths(ss)
  {
    if q in HostPaths(ss) {
      var s :| s in ss && |s.path| >= 2 && s.path[1].AtHost? && q == s.path[..2];
      assert q <= s.path;
      assert Reached(q, ss);
    }
    if Present(plan, q, ss) && IsHostStep(q) {
      var s :| s in ss && q <= s.path;
      assert q == s.path[..2];
    }
  }

  lemma PortsPresent(plan: seq<RootInfo>, ss: seq<Spot>, q: Path)
    requires AllShaped(ss)
    ensures Present(plan, q, ss) && IsPortStep(q) <==> q in ServicePaths(ss)
  {
    if q in ServicePaths(ss) {
      var s :| s in ss && s.path != [] && s.path[|s.path| - 1].AtPort? && q == s.path;
      assert Shaped(s.path) && q <= s.path;
      assert Reached(q, ss);
    }
    if Present(plan, q, ss) && IsPortStep(q) {
      var s :| s in ss && q <= s.path;
      assert Shaped(s.path) && s.path[|q| - 1] == q[|q| - 1];
      assert |q| == |s.path| && s.path[..|q|] == q;
      assert q == s.path;
    }
  }

  lemma UnplacedIsPresent(plan: seq<RootInfo>, ss: seq<Spot>)
    ensures Present(plan, RootPath(|plan|), ss) <==> AnyUnplaced(plan, ss) != []
  {
    var u := AnyUnplaced(plan, ss);
    if u != [] {
      assert u[0] in u;
    }
    if Reached(RootPath(|plan|), ss) {
      var s :| s in ss && RootPath(|plan|) <= s.path;
      assert s in u;
    }
  }

  /** The roots of the finished forest are the trees the value model grows, each on vertices of its own. */
  lemma RootsGrown(b: Board, byKey: map<string, Vertex>, at: Forest, plan: seq<RootInfo>, ss: seq<Spot>)
    requires Building(b, byKey, at, plan, ss)
    ensures |b.roots| == |GrownRoots(plan, ss)|
    ensures forall i :: 0 <= i < |b.roots| ==>
              b.roots[i].Valid() && b.roots[i].Tree() == GrownRoots(plan, ss)[i] && b.roots[i] in b.roots[i].repr
              && b.roots[i].repr <= at.Values
    ensures forall i, j :: 0 <= i < j < |b.roots| ==> b.roots[i].repr !! b.roots[j].repr
  {
    hide Indexes, Kin, Grow, Face, Vertex.Valid, Vertex.Tree, AnyUnplaced, Reached, Footprint;
    UnplacedIsPresent(plan, ss);
    var roots := b.roots;
    forall i | 0 <= i < |roots|
      ensures roots[i].Valid() && roots[i].Tree() == Grow(plan, RootPath(i), ss) && roots[i].repr == Footprint(at, RootPath(i))
              && roots[i] in roots[i].repr && roots[i].repr <= at.Values {
      GrownTree(at, plan, ss, RootPath(i));
      assert Right(at, plan, ss, ss, RootPath(i));
      SelfUnder(at, RootPath(i));
      FootprintWithin(at, RootPath(i));
    }
    forall i, j | 0 <= i < j < |roots| ensures roots[i].repr !! roots[j].repr {
      SiblingsApart(at, [], AtRoot(i), AtRoot(j));
      assert [] + [AtRoot(i)] == RootPath(i) && [] + [AtRoot(j)] == RootPath(j);
    }
  }

  lemma FootprintWithin(at: Forest, p: Path)
    ensures Footprint(at, p) <= at.Values
  {
  }

  // ----- the drawing -----

  /** `Graph`, with the roots on the heap. */
  datatype Drawing = Drawing(
    jobId: string, roots: seq<Vertex>, hosts: nat, services: nat, truncated: nat, skippedTargets: nat, unplaced: nat)

  /** The drawing is the graph: the same roots, each a tree on vertices of its own, and the same counters. */
  ghost predicate Shows(d: Drawing, g: Graph)
    reads d.roots
    reads set r, v | r in d.roots && v in r.repr :: v
  {
    && d.jobId == g.jobId && d.hosts == g.hosts && d.services == g.services && d.truncated == g.truncated
    && d.skippedTargets == g.skippedTargets && d.unplaced == g.unplaced
    && |d.roots| == |g.roots|
    && (forall i :: 0 <= i < |d.roots| ==> d.roots[i].Valid() && d.roots[i].Tree() == g.roots[i])
    && forall i, j :: 0 <= i < j < |d.roots| ==> d.roots[i].repr !! d.roots[j].repr
  }

  const NO_NODE := Node("", "", RootKind, "", 0, NOTHING, ZERO_COUNTS, ZERO_COUNTS, [], false, "", 0, [])

  ghost function Joined(roots: seq<Vertex>): set<Vertex>
    reads roots
  {
    set r, v | r in roots && v in r.repr :: v
  }

  /** Holds the list of roots in a vertex of its own, so that ordering the roots and folding and rolling up each
      of them is what the passes do to the children of a vertex. */
  method Adopt(roots: seq<Vertex>, ghost ts: seq<Node>) returns (top: Vertex)
    requires |ts| == |roots|
    requires forall i :: 0 <= i < |roots| ==>
               roots[i].Valid() && roots[i].Tree() == ts[i] && roots[i] in roots[i].repr
    requires forall i, j :: 0 <= i < j < |roots| ==> roots[i].repr !! roots[j].repr
    ensures top.Valid() && top.Tree() == NO_NODE.(children := ts)
    ensures fresh(top) && top.repr == {top} + old(Joined(roots))
  {
    hide Vertex.Valid, Vertex.Tree, Joined;
    RootsJoined(roots);
    top := new Vertex(NO_NODE);
    assert forall i :: 0 <= i < |roots| ==> top !in roots[i].repr && roots[i] != top;
    top.children := roots;
    top.repr := {top} + Joined(roots);
    assert forall i :: 0 <= i < |roots| ==> roots[i].Valid() && roots[i].Tree() == ts[i];
    Founded(top);
    Family(top);
    assert top.Tree().children == ts;
  }

  /** The three passes over the roots. */
  method Passes(top: Vertex, ghost ts: seq<Node>) returns (truncated: nat)
    requires top.Valid() && top.Tree() == NO_NODE.(children := ts)
    modifies top.repr
    ensures top.Valid() && top.Tree().children == DrawnAll(SortNodes(NormaliseAll(ts)))
    ensures truncated == FoldedAll(SortNodes(NormaliseAll(ts)), |ts|)
    ensures fresh(top.repr - old(top.repr))
  {
    hide Vertex.Valid, Vertex.Tree, SortNodes, NormaliseAll, Folded, FoldedAll, SurfaceTree.Normalise, SurfaceTree.RollUp, Height;
    hide TrimAll, RollUpAll;
    ghost var sorted := SortNodes(NormaliseAll(ts));
    Family(top);
    top.Normalise();
    NormaliseShows(NO_NODE, ts);
    Family(top);
    forall i | 0 <= i < |top.children| ensures Height(top.children[i].Tree()) < HeightAll(sorted) {
      ChildIsLower(sorted, i);
    }
    truncated := top.TrimChildren(HeightAll(sorted));
    RollUpShows(top.Tree());
    Family(top);
    top.RollUp();
  }

  lemma RootsJoined(roots: seq<Vertex>)
    requires forall i :: 0 <= i < |roots| ==> roots[i] in roots[i].repr
    ensures forall i :: 0 <= i < |roots| ==> roots[i] in Joined(roots) && roots[i].repr <= Joined(roots)
  {
    forall i | 0 <= i < |roots| ensures roots[i] in Joined(roots) && roots[i].repr <= Joined(roots) {
      assert roots[i] in roots;
    }
  }

  lemma NormaliseShows(n: Node, ts: seq<Node>)
    ensures SurfaceTree.Normalise(n.(children := ts)).children == SortNodes(NormaliseAll(ts))
  {
  }

  lemma RollUpShows(n: Node)
    ensures SurfaceTree.RollUp(n).children == RollUpAll(n.children)
  {
  }

  /** Orders, folds and rolls up the finished forest. */
  method DrawForest(roots: seq<Vertex>, ghost ts: seq<Node>, ghost all: set<Vertex>) returns (top: Vertex, truncated: nat)
    requires |ts| == |roots|
    requires forall i :: 0 <= i < |roots| ==>
               roots[i].Valid() && roots[i].Tree() == ts[i] && roots[i] in roots[i].repr && roots[i].repr <= all
    requires forall i, j :: 0 <= i < j < |roots| ==> roots[i].repr !! roots[j].repr
    modifies all
    ensures top.Valid() && top.Tree().children == DrawnAll(SortNodes(NormaliseAll(ts)))
    ensures truncated == FoldedAll(SortNodes(NormaliseAll(ts)), |ts|)
    ensures fresh(top.repr - all)
  {
    hide Vertex.Valid, Vertex.Tree, DrawnAll, SortNodes, NormaliseAll, FoldedAll, Joined;
    JoinedWithin(roots, all);
    top := Adopt(roots, ts);
    truncated := Passes(top, ts);
  }

  /** Plants the declared roots and places every finding. */
  method GrowForest(job: Option<Job>, fs: seq<Option<Finding>>)
    returns (b: Board, skipped: nat, ghost byKey: map<string, Vertex>, ghost at: Forest)
    ensures var plan := PlanOf(DeclaredTargets(job));
            && Building(b, byKey, at, plan, Spots(plan, fs))
            && skipped == |Filter(IsSkipped, plan)|
    ensures fresh(at.Values)
  {
    hide Building, Spots, PlanOf, DeclaredTargets, SortBy, NoDuplicates, Planted, ForestOf;
    var ds := DeclaredTargets(job);
    ghost var plan := PlanOf(ds);
    var roots, byKey', keys, skipped' := PlantRoots(ds);
    skipped := skipped';
    byKey := byKey';
    PlantedCount(roots, plan);
    forall i | 0 <= i < |roots| ensures plan[i].key in byKey' && byKey'[plan[i].key] == roots[i] {
      assert keys[i] == plan[i].key;
    }
    assert NoDuplicates(Keys(plan));
    PlantedIsBuilding(roots, plan, byKey');
    ForestIsFresh(roots);
    ghost var at0 := ForestOf(roots);
    var rootKeys := SortBy(LongerFirst, keys);
    b, at := PlaceAll(Board(roots, None, map[], map[], 0, 0, 0), rootKeys, byKey', fs, at0, plan);
  }

  /** `Build` in place draws exactly the graph that the value model describes. */
  method BuildInPlace(job: Option<Job>, fs: seq<Option<Finding>>) returns (d: Drawing)
    ensures Shows(d, Build(job, fs))
  {
    hide Building, Spots, GraphOf, PlanOf, DeclaredTargets, Vertex.Valid, Vertex.Tree, Shows, Grown, GrownRoots, Build;
    hide DrawnAll, SortNodes, NormaliseAll, FoldedAll;
    var b, skipped;
    ghost var byKey, at;
    b, skipped, byKey, at := GrowForest(job, fs);
    ghost var plan := PlanOf(DeclaredTargets(job));
    ghost var ss := Spots(plan, fs);
    KindsAreCounted(b, byKey, at, plan, fs);
    UnplacedCounted(b, byKey, at, plan, ss);
    RootsGrown(b, byKey, at, plan, ss);
    var top, truncated := DrawForest(b.roots, GrownRoots(plan, ss), at.Values);
    d := Drawing(JobId(job), top.children, b.hostCount, b.serviceCount, truncated, skipped, b.unplacedCount);
    BuildUnfolds(job, fs);
    SortedLength(GrownRoots(plan, ss));
    ShowsAll(d, Build(job, fs), top);
  }

  lemma SortedLength(ns: seq<Node>)
    ensures |SortNodes(NormaliseAll(ns))| == |ns|
  {
  }

  lemma ForestIsFresh(roots: seq<Vertex>)
    ensures forall q :: q in ForestOf(roots) ==> ForestOf(roots)[q] in roots
  {
  }

  lemma JoinedWithin(roots: seq<Vertex>, all: set<Vertex>)
    requires forall i :: 0 <= i < |roots| ==> roots[i].repr <= all
    ensures Joined(roots) <= all
  {
  }

  lemma UnplacedCounted(b: Board, byKey: map<string, Vertex>, at: Forest, plan: seq<RootInfo>, ss: seq<Spot>)
    requires Building(b, byKey, at, plan, ss)
    ensures b.unplacedCount == |AnyUnplaced(plan, ss)|
  {
    hide Grown, Tracks, AnyUnplaced;
  }

  lemma BuildUnfolds(job: Option<Job>, fs: seq<Option<Finding>>)
    ensures var plan := PlanOf(DeclaredTargets(job));
            var ss := Spots(plan, fs);
            var sorted := SortNodes(NormaliseAll(GrownRoots(plan, ss)));
            Build(job, fs) == Graph(JobId(job), DrawnAll(sorted), |HostPaths(ss)|, |ServicePaths(ss)|, FoldedAll(sorted, |sorted|),
                                    |Filter(IsSkipped, plan)|, |AnyUnplaced(plan, ss)|)
  {
    hide DrawnAll, SortNodes, NormaliseAll, GrownRoots, FoldedAll, PlanOf, Spots, DeclaredTargets;
  }

  lemma ShowsAll(d: Drawing, g: Graph, top: Vertex)
    requires top.Valid() && d.roots == top.children && top.Tree().children == g.roots
    requires d.jobId == g.jobId && d.hosts == g.hosts && d.services == g.services && d.truncated == g.truncated
    requires d.skippedTargets == g.skippedTargets && d.unplaced == g.unplaced
    ensures Shows(d, g)
  {
    hide Vertex.Valid, Vertex.Tree;
    Family(top);
  }
}
