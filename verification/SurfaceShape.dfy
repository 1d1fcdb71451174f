/** The shape of the drawn graph: links, unique identifiers, counters. */
module SurfaceShape {
  import opened Text
  import opened Ordering
  import opened Findings
  import opened Records
  import opened SurfaceTree
  import opened SurfaceBuild
  import opened SurfaceProofs

  // ----- identifiers decide paths -----

  ghost predicate IsHostPath(plan: seq<RootInfo>, q: seq<Step>) {
    exists host :: q == Holder(plan, host) && |q| == 2
  }

  ghost predicate IsServicePath(plan: seq<RootInfo>, q: seq<Step>) {
    exists host, port :: q == PathFor(plan, host, port) && port > 0
  }

  /** `id` is the identifier of the host or service node at `q`. */
  ghost predicate Names(plan: seq<RootInfo>, q: seq<Step>, id: string) {
    q != [] && NodeId(plan, q) == id && (IsHostPath(plan, q) || IsServicePath(plan, q))
  }

  lemma HostId(plan: seq<RootInfo>, host: string)
    requires |Holder(plan, host)| == 2
    ensures NodeId(plan, Holder(plan, host)) == "host:" + host
    ensures NodeId(plan, Holder(plan, host))[0] == 'h'
  {
    hide RootIndex, RootAt;
  }

  lemma ServiceId(plan: seq<RootInfo>, host: string, port: int)
    requires port > 0
    ensures NodeId(plan, PathFor(plan, host, port)) == "svc:" + host + ":" + Itoa(port)
    ensures NodeId(plan, PathFor(plan, host, port))[0] == 's'
  {
    hide RootIndex, RootAt, Itoa;
    var p := PathFor(plan, host, port);
    assert p[|p| - 1] == AtPort(port);
    assert HostKeyAt(plan, p) == host;
  }

  lemma LastColon(a: string, p: int)
    ensures var s := a + ":" + Itoa(p);
            && s[..|a|] == a && s[|a|] == ':' && s[|a| + 1..] == Itoa(p)
            && forall k :: |a| < k < |s| ==> s[k] != ':'
  {
    var s := a + ":" + Itoa(p);
    forall k | |a| < k < |s| ensures s[k] != ':' {
      assert s[k] == Itoa(p)[k - |a| - 1] && Itoa(p)[k - |a| - 1] in Itoa(p);
    }
  }

  /** The text after the last colon is the port. */
  lemma ServiceNameParts(a: string, p: int, b: string, q: int)
    requires a + ":" + Itoa(p) == b + ":" + Itoa(q)
    ensures a == b && p == q
  {
    LastColon(a, p);
    LastColon(b, q);
    ItoaInjective(p, q);
  }

  /** Host and service identifiers are globally unique: an identifier is the name of one node only. */
  lemma NamesUnique(plan: seq<RootInfo>, q: seq<Step>, r: seq<Step>, id: string)
    requires Names(plan, q, id) && Names(plan, r, id)
    ensures q == r
  {
    hide NodeId, Holder, PathFor, Itoa;
    if IsHostPath(plan, q) {
      var a :| q == Holder(plan, a) && |q| == 2;
      HostId(plan, a);
      if IsHostPath(plan, r) {
        var b :| r == Holder(plan, b) && |r| == 2;
        HostId(plan, b);
        assert id[5..] == a && id[5..] == b;
      } else {
        var b, port :| r == PathFor(plan, b, port) && port > 0;
        ServiceId(plan, b, port);
      }
    } else {
      var a, p :| q == PathFor(plan, a, p) && p > 0;
      ServiceId(plan, a, p);
      if IsHostPath(plan, r) {
        var b :| r == Holder(plan, b) && |r| == 2;
        HostId(plan, b);
      } else {
        var b, port :| r == PathFor(plan, b, port) && port > 0;
        ServiceId(plan, b, port);
        assert id[4..] == a + ":" + Itoa(p) && id[4..] == b + ":" + Itoa(port);
        ServiceNameParts(a, p, b, port);
      }
    }
  }

  // ----- at most one node for each identifier -----

  ghost predicate NamedBelow(plan: seq<RootInfo>, path: seq<Step>, id: string) {
    exists q :: path <= q && Names(plan, q, id)
  }

  ghost predicate OneEach(plan: seq<RootInfo>, path: seq<Step>, bag: multiset<string>) {
    forall id :: bag[id] <= 1 && (id in bag ==> NamedBelow(plan, path, id))
  }

  lemma NamedOnce(plan: seq<RootInfo>, path: seq<Step>, a: Step, b: Step, id: string)
    requires NamedBelow(plan, path + [a], id) && NamedBelow(plan, path + [b], id)
    ensures a == b
  {
    hide Names;
    var q :| path + [a] <= q && Names(plan, q, id);
    var r :| path + [b] <= r && Names(plan, r, id);
    NamesUnique(plan, q, r, id);
    assert q[|path|] == (path + [a])[|path|] && q[|path|] == (path + [b])[|path|];
  }

  lemma {:induction false} SiblingBags(plan: seq<RootInfo>, path: seq<Step>, steps: seq<Step>, ns: seq<Node>)
    requires |ns| == |steps| && NoDuplicates(steps)
    requires forall i :: 0 <= i < |ns| ==> OneEach(plan, path + [steps[i]], IdBag(ns[i]))
    ensures forall id :: IdBagAll(ns)[id] <= 1
    ensures forall id :: id in IdBagAll(ns) ==> exists i :: 0 <= i < |steps| && NamedBelow(plan, path + [steps[i]], id)
  {
    hide IdBag, NamedBelow;
    if ns != [] {
      SiblingBags(plan, path, steps[1..], ns[1..]);
      var rest := IdBagAll(ns[1..]);
      assert OneEach(plan, path + [steps[0]], IdBag(ns[0]));
      forall id ensures IdBagAll(ns)[id] <= 1 {
        if id in rest && id in IdBag(ns[0]) {
          var i :| 0 <= i < |steps[1..]| && NamedBelow(plan, path + [steps[1..][i]], id);
          NamedOnce(plan, path, steps[0], steps[i + 1], id);
        }
      }
      forall id | id in IdBagAll(ns) ensures exists i :: 0 <= i < |steps| && NamedBelow(plan, path + [steps[i]], id) {
        if id in rest {
          var i :| 0 <= i < |steps[1..]| && NamedBelow(plan, path + [steps[1..][i]], id);
          assert NamedBelow(plan, path + [steps[i + 1]], id);
        }
      }
    }
  }

  ghost predicate AllPlaced(plan: seq<RootInfo>, spots: seq<Spot>) {
    forall s :: s in spots ==> Places(plan, s.path)
  }

  /** Some finding is placed at or below the path. */
  ghost predicate Reached(path: seq<Step>, spots: seq<Spot>) {
    exists s :: s in spots && path <= s.path
  }

  /** A node below a root that some finding reaches is a host or a service, under its own name. */
  lemma ReachedIsNamed(plan: seq<RootInfo>, path: seq<Step>, spots: seq<Spot>)
    requires AllPlaced(plan, spots) && Reached(path, spots) && |path| >= 2
    ensures Names(plan, path, NodeId(plan, path))
  {
    hide RootIndex, RootAt, NodeId;
    var s :| s in spots && path <= s.path;
    var host, port :| s.path == PathFor(plan, host, port);
    var h := Holder(plan, host);
    if |h| == 2 && |path| == 2 {
      assert path == h;
      assert IsHostPath(plan, path);
    } else {
      assert path == s.path;
      assert IsServicePath(plan, path);
    }
  }

  lemma BagOfNode(n: Node)
    ensures IdBag(n) == (if n.kind.HostKind? || n.kind.ServiceKind? then multiset{n.id} else multiset{}) + IdBagAll(n.children)
  {
  }

  lemma BlankKind(plan: seq<RootInfo>, path: seq<Step>)
    requires path != []
    ensures Blank(plan, path).id == NodeId(plan, path)
    ensures path[|path| - 1].AtRoot? <==> Blank(plan, path).kind == RootKind
    ensures Blank(plan, path).hidden == 0 && Blank(plan, path).kind != MoreKind
    ensures Blank(plan, path).parent == NodeId(plan, path[..|path| - 1])
  {
    hide NodeId, Itoa, RootAt;
  }

  lemma LastStepNotRoot(path: seq<Step>, spots: seq<Spot>)
    requires AllShaped(spots) && Reached(path, spots) && |path| >= 2
    ensures !path[|path| - 1].AtRoot?
  {
    var s :| s in spots && path <= s.path;
    assert Shaped(s.path);
    assert path[|path| - 1] == s.path[|path| - 1];
  }

  lemma {:induction false} GrowIds(plan: seq<RootInfo>, path: seq<Step>, spots: seq<Spot>)
    requires path != [] && AllShaped(spots) && AllPlaced(plan, spots)
    requires |path| == 1 ==> path[0].AtRoot?
    requires |path| >= 2 ==> Reached(path, spots)
    ensures OneEach(plan, path, IdBag(Grow(plan, path, spots)))
    decreases DEPTH - |path|
  {
    hide Grow, Blank, NextSteps, IdBag, IdBagAll, AllShaped, AllPlaced, Tally, Names;
    var g := Grow(plan, path, spots);
    GrowShape(plan, path, spots);
    BlankKind(plan, path);
    BagOfNode(g);
    var steps := if |path| < DEPTH then NextSteps(path, spots) else [];
    forall i | 0 <= i < |steps| ensures OneEach(plan, path + [steps[i]], IdBag(g.children[i])) {
      NextStepOfSpot(path, spots, steps[i]);
      GrowIds(plan, path + [steps[i]], spots);
    }
    assert NoDuplicates(steps) by { StepsDistinct(path, spots); }
    SiblingBags(plan, path, steps, g.children);
    if |path| >= 2 {
      ReachedIsNamed(plan, path, spots);
      LastStepNotRoot(path, spots);
    }
    NodeOverSiblings(plan, path, steps, g, IdBagAll(g.children));
  }

  lemma StepsDistinct(path: seq<Step>, spots: seq<Spot>)
    ensures NoDuplicates(NextSteps(path, spots))
  {
  }

  /** A node's own identifier differs from all those below it. */
  lemma NodeOverSiblings(plan: seq<RootInfo>, path: seq<Step>, steps: seq<Step>, g: Node, below: multiset<string>)
    requires path != [] && g.id == NodeId(plan, path)
    requires forall id :: below[id] <= 1
    requires forall id :: id in below ==> exists i :: 0 <= i < |steps| && NamedBelow(plan, path + [steps[i]], id)
    requires IdBag(g) == (if g.kind.HostKind? || g.kind.ServiceKind? then multiset{g.id} else multiset{}) + below
    requires |path| == 1 ==> g.kind == RootKind
    requires |path| >= 2 ==> Names(plan, path, g.id)
    ensures OneEach(plan, path, IdBag(g))
  {
    hide IdBag, Names, NodeId;
    forall id | id in below ensures NamedBelow(plan, path, id) && (|path| >= 2 ==> id != g.id) {
      var i :| 0 <= i < |steps| && NamedBelow(plan, path + [steps[i]], id);
      var q :| path + [steps[i]] <= q && Names(plan, q, id);
      assert path <= path + [steps[i]];
      assert q[..|path|] == path;
      if |path| >= 2 && id == g.id {
        NamesUnique(plan, q, path, id);
      }
    }
    if |path| >= 2 {
      assert path <= path;
      assert NamedBelow(plan, path, g.id);
    }
  }

  lemma {:induction false} DrawnRootsIds(ns: seq<Node>)
    ensures IdBagAll(DrawnAll(ns)) <= IdBagAll(ns)
  {
    DrawingAllKeepsIds(ns);
  }

  lemma GrownRootsIds(plan: seq<RootInfo>, fs: seq<Option<Finding>>)
    ensures forall id :: IdBagAll(GrownRoots(plan, Spots(plan, fs)))[id] <= 1
  {
    hide Grow, Spots, IdBag, IdBagAll, Places, RootCount;
    var spots := Spots(plan, fs);
    var roots := GrownRoots(plan, spots);
    var steps := seq(|roots|, i requires 0 <= i < |roots| => AtRoot(i));
    SpotsShaped(plan, fs);
    SpotsArePlaced(plan, fs);
    forall i | 0 <= i < |roots| ensures OneEach(plan, [] + [steps[i]], IdBag(roots[i])) {
      GrowIds(plan, [AtRoot(i)], spots);
      assert [] + [steps[i]] == [AtRoot(i)];
    }
    SiblingBags(plan, [], steps, roots);
  }

  /** No two host or service nodes of the drawn graph share an identifier. */
  lemma IdentifiersUnique(job: Option<Job>, fs: seq<Option<Finding>>)
    ensures forall id :: IdBagAll(Build(job, fs).roots)[id] <= 1
  {
    hide DeclaredTargets, PlanOf, Spots, SortNodes, GrownRoots, HostPaths, ServicePaths, AnyUnplaced, IdBagAll;
    var plan := PlanOf(DeclaredTargets(job));
    var grown := GrownRoots(plan, Spots(plan, fs));
    DrawnRootsIds(SortedRoots(plan, Spots(plan, fs)));
    IdBagPermutation(NormaliseAll(grown), SortedRoots(plan, Spots(plan, fs)));
    NormaliseAllKeepsIds(grown);
    GrownRootsIds(plan, fs);
  }

  // ----- links and folded siblings -----

  lemma {:induction false} GrowLinks(plan: seq<RootInfo>, path: seq<Step>, spots: seq<Spot>)
    requires path != []
    ensures ParentLinks(Grow(plan, path, spots)) && Plain(Grow(plan, path, spots))
    ensures Grow(plan, path, spots).parent == NodeId(plan, path[..|path| - 1])
    decreases DEPTH - |path|
  {
    hide Grow, Blank, NextSteps, Tally, NodeId;
    var g := Grow(plan, path, spots);
    GrowShape(plan, path, spots);
    BlankKind(plan, path);
    forall i | 0 <= i < |g.children|
      ensures ParentLinks(g.children[i]) && Plain(g.children[i]) && g.children[i].parent == g.id {
      var p := path + [NextSteps(path, spots)[i]];
      GrowLinks(plan, p, spots);
      assert p[..|p| - 1] == path;
    }
  }

  lemma {:induction false} NormaliseKeepsPlain(n: Node)
    requires Plain(n)
    ensures Plain(Normalise(n))
    decreases n
  {
    hide SortStrings, NodeLeq, SortBy;
    var all := NormaliseAll(n.children);
    forall i | 0 <= i < |all| ensures Plain(all[i]) {
      NormaliseKeepsPlain(n.children[i]);
    }
    var out := SortNodes(all);
    SameElements(out, all);
    forall i | 0 <= i < |out| ensures Plain(out[i]) {
      assert out[i] in all;
    }
    hide NormaliseAll, SortNodes;
  }

  lemma SortedRootsShape(plan: seq<RootInfo>, spots: seq<Spot>)
    ensures forall r :: r in SortedRoots(plan, spots) ==> ParentLinks(r) && Plain(r) && r.parent == ""
  {
    hide Grow, NodeLeq, SortBy, RootCount, Plain, ParentLinks;
    var grown := GrownRoots(plan, spots);
    var all := NormaliseAll(grown);
    SameElements(SortNodes(all), all);
    forall r | r in all ensures ParentLinks(r) && Plain(r) && r.parent == "" {
      var i :| 0 <= i < |all| && all[i] == r;
      GrowLinks(plan, [AtRoot(i)], spots);
      assert [AtRoot(i)][..0] == [];
      assert NodeId(plan, []) == "";
      NormaliseKeepsLinks(grown[i]);
      NormaliseKeepsPlain(grown[i]);
      NormaliseShape(grown[i]);
    }
  }

  lemma NormaliseShape(n: Node)
    ensures Normalise(n).parent == n.parent
  {
    hide SortNodes, NormaliseAll, SortStrings;
  }

  lemma DrawnRootsLinked(roots: seq<Node>)
    requires forall r :: r in roots ==> r.parent == "" && ParentLinks(r)
    ensures forall r :: r in DrawnAll(roots) ==> r.parent == "" && ParentLinks(r)
  {
    hide Drawn, ParentLinks;
    forall r | r in DrawnAll(roots) ensures r.parent == "" && ParentLinks(r) {
      var i :| 0 <= i < |roots| && DrawnAll(roots)[i] == r;
      assert roots[i] in roots;
      DrawingKeepsLinks(roots[i]);
      DrawnShape(roots[i]);
    }
  }

  /** Every drawn node below a root names its parent, and `Truncated` is the number of siblings that the
      "+n more" nodes of the picture stand for. */
  lemma LinksAndTruncation(job: Option<Job>, fs: seq<Option<Finding>>)
    ensures var g := Build(job, fs);
            && (forall r :: r in g.roots ==> r.parent == "" && ParentLinks(r))
            && g.truncated == HiddenInAll(g.roots)
  {
    hide DeclaredTargets, PlanOf, Spots, SortedRoots, HostPaths, ServicePaths, AnyUnplaced, Drawn, ParentLinks, Plain, DrawnAll;
    var plan := PlanOf(DeclaredTargets(job));
    var roots := SortedRoots(plan, Spots(plan, fs));
    SortedRootsShape(plan, Spots(plan, fs));
    DrawnRootsLinked(roots);
    FoldedAllIsHidden(roots, |roots|);
    assert DrawnAll(roots)[..|roots|] == DrawnAll(roots);
  }

  /** Every child list of the picture keeps to its limit. */
  lemma ChildListsAreLimited(job: Option<Job>, fs: seq<Option<Finding>>)
    ensures forall r :: r in Build(job, fs).roots ==> WithinLimits(r)
  {
    hide DeclaredTargets, PlanOf, Spots, SortedRoots, HostPaths, ServicePaths, AnyUnplaced, Drawn, Draws, WithinLimits;
    var plan := PlanOf(DeclaredTargets(job));
    var roots := SortedRoots(plan, Spots(plan, fs));
    forall r | r in DrawnAll(roots) ensures WithinLimits(r) {
      var i :| 0 <= i < |roots| && DrawnAll(roots)[i] == r;
      FoldingLosesNothing(roots[i]);
      DrawnWithinLimits(r, roots[i]);
    }
  }

  // ----- counters -----

  lemma SameSize<A, B>(a: set<A>, b: set<B>, f: A -> B)
    requires forall x :: x in a ==> f(x) in b
    requires forall x, y :: x in a && y in a && f(x) == f(y) ==> x == y
    requires forall y :: y in b ==> exists x :: x in a && f(x) == y
    ensures |a| == |b|
  {
    if a == {} {
      assert b == {};
    } else {
      var x :| x in a;
      SameSize(a - {x}, b - {f(x)}, f);
    }
  }

  /** The hosts of the findings that are not themselves the key of the root they belong to. */
  function ObservedHosts(plan: seq<RootInfo>, fs: seq<Option<Finding>>): set<string> {
    set f | f in fs && Placeable(f) && |Holder(plan, HostOf(f.value.target))| == 2 :: HostOf(f.value.target)
  }

  /** The (host, port) pairs at which a finding recorded an open port. */
  function ObservedPorts(fs: seq<Option<Finding>>): set<(string, int)> {
    set f | f in fs && Placeable(f) && f.value.port > 0 :: (HostOf(f.value.target), f.value.port)
  }

  lemma SpotOf(plan: seq<RootInfo>, fs: seq<Option<Finding>>, f: Option<Finding>)
    requires f in fs && Placeable(f)
    ensures Place(plan)(f) in Spots(plan, fs)
  {
    hide HostOf, PathFor;
    var ps := Filter(Placeable, fs);
    var i :| 0 <= i < |ps| && ps[i] == f;
    assert Spots(plan, fs)[i] == Place(plan)(f);
  }

  lemma FindingOf(plan: seq<RootInfo>, fs: seq<Option<Finding>>, s: Spot)
    requires s in Spots(plan, fs)
    ensures exists f :: f in fs && Placeable(f) && s.path == PathFor(plan, HostOf(f.value.target), f.value.port)
  {
    hide HostOf, PathFor;
    var ps := Filter(Placeable, fs);
    var i :| 0 <= i < |ps| && Spots(plan, fs)[i] == s;
    assert ps[i] in ps && ps[i] in fs && Placeable(ps[i]);
  }

  lemma HolderPrefix(plan: seq<RootInfo>, host: string, port: int)
    ensures var p := PathFor(plan, host, port);
            && (|Holder(plan, host)| == 2 <==> |p| >= 2 && p[1].AtHost?)
            && (|Holder(plan, host)| == 2 ==> p[..2] == Holder(plan, host) && p[1] == AtHost(host))
            && (port > 0 <==> p != [] && p[|p| - 1].AtPort?)
            && (port > 0 ==> p[|p| - 1] == AtPort(port))
  {
    hide RootIndex, RootAt;
  }

  lemma HostCount(plan: seq<RootInfo>, fs: seq<Option<Finding>>)
    ensures |HostPaths(Spots(plan, fs))| == |ObservedHosts(plan, fs)|
  {
    hide HostOf, Holder, PathFor;
    var spots := Spots(plan, fs);
    var hosts, paths := ObservedHosts(plan, fs), HostPaths(spots);
    var f := (h: string) => Holder(plan, h);
    forall h | h in hosts ensures f(h) in paths {
      var x :| x in fs && Placeable(x) && |Holder(plan, HostOf(x.value.target))| == 2 && HostOf(x.value.target) == h;
      SpotOf(plan, fs, x);
      HolderPrefix(plan, h, x.value.port);
    }
    forall a, b | a in hosts && b in hosts && f(a) == f(b) ensures a == b {
      HolderPrefix(plan, a, 0);
      HolderPrefix(plan, b, 0);
    }
    forall p | p in paths ensures exists h :: h in hosts && f(h) == p {
      var s :| s in spots && |s.path| >= 2 && s.path[1].AtHost? && s.path[..2] == p;
      FindingOf(plan, fs, s);
      var x :| x in fs && Placeable(x) && s.path == PathFor(plan, HostOf(x.value.target), x.value.port);
      var h := HostOf(x.value.target);
      HolderPrefix(plan, h, x.value.port);
      assert h in hosts && f(h) == p;
    }
    SameSize(hosts, paths, f);
  }

  lemma PortOfPath(plan: seq<RootInfo>, fs: seq<Option<Finding>>, p: seq<Step>)
    requires p in ServicePaths(Spots(plan, fs))
    ensures exists host, port :: (host, port) in ObservedPorts(fs) && PathFor(plan, host, port) == p
  {
    hide HostOf, Holder, PathFor, Spots;
    var s :| s in Spots(plan, fs) && s.path != [] && s.path[|s.path| - 1].AtPort? && s.path == p;
    FindingOf(plan, fs, s);
    var x :| x in fs && Placeable(x) && s.path == PathFor(plan, HostOf(x.value.target), x.value.port);
    HolderPrefix(plan, HostOf(x.value.target), x.value.port);
    assert (HostOf(x.value.target), x.value.port) in ObservedPorts(fs);
  }

  lemma PathOfPort(plan: seq<RootInfo>, fs: seq<Option<Finding>>, host: string, port: int)
    requires (host, port) in ObservedPorts(fs)
    ensures PathFor(plan, host, port) in ServicePaths(Spots(plan, fs)) && port > 0
  {
    hide HostOf, Holder, PathFor, Spots;
    var x :| x in fs && Placeable(x) && x.value.port > 0 && (HostOf(x.value.target), x.value.port) == (host, port);
    SpotOf(plan, fs, x);
    HolderPrefix(plan, host, port);
  }

  lemma PortCount(plan: seq<RootInfo>, fs: seq<Option<Finding>>)
    ensures |ServicePaths(Spots(plan, fs))| == |ObservedPorts(fs)|
  {
    hide PathFor, Spots, ObservedPorts, ServicePaths;
    var ports, paths := ObservedPorts(fs), ServicePaths(Spots(plan, fs));
    var f := (hp: (string, int)) => PathFor(plan, hp.0, hp.1);
    forall hp | hp in ports ensures f(hp) in paths {
      PathOfPort(plan, fs, hp.0, hp.1);
    }
    forall a, b | a in ports && b in ports && f(a) == f(b) ensures a == b {
      PathOfPort(plan, fs, a.0, a.1);
      PathOfPort(plan, fs, b.0, b.1);
      ServicesDiffer(plan, a.0, a.1, b.0, b.1);
    }
    forall p | p in paths ensures exists hp :: hp in ports && f(hp) == p {
      PortOfPath(plan, fs, p);
      var host, port :| (host, port) in ports && PathFor(plan, host, port) == p;
      assert f((host, port)) == p;
    }
    SameSize(ports, paths, f);
  }

  lemma ServicesDiffer(plan: seq<RootInfo>, a: string, p: int, b: string, q: int)
    requires p > 0 && q > 0 && PathFor(plan, a, p) == PathFor(plan, b, q)
    ensures a == b && p == q
  {
    hide PathFor, NodeId, Itoa;
    ServiceId(plan, a, p);
    ServiceId(plan, b, q);
    var id := NodeId(plan, PathFor(plan, a, p));
    assert id[4..] == a + ":" + Itoa(p) && id[4..] == b + ":" + Itoa(q);
    ServiceNameParts(a, p, b, q);
  }

  /** `Hosts` counts distinct hosts beside the declared ones, `Services` distinct (host, port) pairs. */
  lemma CountersCountDistinct(job: Option<Job>, fs: seq<Option<Finding>>)
    ensures var g := Build(job, fs);
            && g.hosts == |ObservedHosts(PlanOf(DeclaredTargets(job)), fs)|
            && g.services == |ObservedPorts(fs)|
  {
    hide DeclaredTargets, PlanOf, Spots, SortedRoots, HostPaths, ServicePaths, AnyUnplaced, ObservedHosts, ObservedPorts;
    var plan := PlanOf(DeclaredTargets(job));
    HostCount(plan, fs);
    PortCount(plan, fs);
  }
}
