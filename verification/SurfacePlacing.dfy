/** internal/surface/surface.go: `Build` as it is, filling maps and linking nodes while it walks the findings. */
module SurfacePlacing {
  import opened Text
  import opened Ordering
  import opened Findings
  import opened Records
  import opened SurfaceTree
  import opened SurfaceBuild
  import opened SurfaceProofs
  import opened SurfaceShape
  import opened SurfaceKeys
  import opened SurfaceHeap
  import opened SurfaceForest

  /** The local variables of `Build`: the list of roots, the maps from text keys, and the counters. */
  datatype Board = Board(
    roots: seq<Vertex>, unplaced: Option<Vertex>, hosts: map<string, Vertex>, services: map<string, Vertex>,
    hostCount: nat, serviceCount: nat, unplacedCount: nat)

  // ----- what the maps mean -----

  function PathKey(plan: seq<RootInfo>, q: Path): string
    requires q != []
  {
    var above := NodeId(plan, q[..|q| - 1]);
    match q[|q| - 1]
    case AtRoot(_) => ""
    case AtHost(h) => HostKey(above, h)
    case AtPort(p) => ServiceKey(above, p)
  }

  /** `index` finds exactly the vertices of one kind, each under its key. */
  ghost predicate Indexes(index: map<string, Vertex>, at: Forest, plan: seq<RootInfo>, kind: Path -> bool) {
    && (forall q :: q in at && q != [] && kind(q) ==> PathKey(plan, q) in index && index[PathKey(plan, q)] == at[q])
    && (forall k :: k in index ==> exists q :: q in at && q != [] && kind(q) && PathKey(plan, q) == k)
  }

  function OfKind(at: Forest, kind: Path -> bool): set<Path> {
    set q | q in at && kind(q)
  }

  function RootPath(i: nat): Path { [AtRoot(i)] }

  ghost predicate RootsListed(b: Board, at: Forest, plan: seq<RootInfo>) {
    && (b.unplaced.Some? <==> RootPath(|plan|) in at)
    && (b.unplaced.Some? ==> b.unplaced.value == at[RootPath(|plan|)])
    && |b.roots| == |plan| + (if b.unplaced.Some? then 1 else 0)
    && forall i :: 0 <= i < |b.roots| ==> RootPath(i) in at && b.roots[i] == at[RootPath(i)]
  }

  ghost predicate Tracks(b: Board, at: Forest, plan: seq<RootInfo>) {
    && RootsListed(b, at, plan)
    && Indexes(b.hosts, at, plan, IsHostStep) && Indexes(b.services, at, plan, IsPortStep)
    && b.hostCount == |OfKind(at, IsHostStep)| && b.serviceCount == |OfKind(at, IsPortStep)|
  }

  // ----- looking up -----

  /** Every path in the forest leads to where some host or service belongs. */
  ghost predicate Placed(at: Forest, plan: seq<RootInfo>) {
    forall q :: q in at && |q| >= 2 ==> IsHostPath(plan, q) || IsServicePath(plan, q)
  }

  lemma HostPathKey(plan: seq<RootInfo>, host: string)
    requires |Holder(plan, host)| == 2
    ensures var q := Holder(plan, host);
            IsHostStep(q) && PathKey(plan, q) == HostKey("root:" + RootKeyOf(plan, host), host) && RootKeyOf(plan, host) != host
  {
    hide RootIndex;
    var q := Holder(plan, host);
    assert q[..1] == [q[0]];
  }

  lemma ServicePathKey(plan: seq<RootInfo>, host: string, port: int)
    requires port > 0
    ensures var q := PathFor(plan, host, port);
            IsPortStep(q) && PathKey(plan, q) == ServiceKey(NodeId(plan, Holder(plan, host)), port)
            && q[..|q| - 1] == Holder(plan, host)
  {
    hide Holder, NodeId;
    var q := PathFor(plan, host, port);
    assert q[|q| - 1] == AtPort(port);
  }

  lemma HostPathsApart(plan: seq<RootInfo>, q: Path, r: Path)
    requires NoDuplicates(Keys(plan))
    requires IsHostPath(plan, q) && (IsHostPath(plan, r) || IsServicePath(plan, r)) && IsHostStep(r)
    requires PathKey(plan, q) == PathKey(plan, r)
    ensures q == r
  {
    hide Holder, PathKey, RootKeyOf, HostKey;
    var a :| q == Holder(plan, a) && |q| == 2;
    HostPathKey(plan, a);
    if IsHostPath(plan, r) {
      var b :| r == Holder(plan, b) && |r| == 2;
      HostPathKey(plan, b);
      HostKeyDecides(plan, a, b);
    } else {
      var b, p :| r == PathFor(plan, b, p) && p > 0;
      ServicePathKey(plan, b, p);
    }
  }

  lemma ServicePathsApart(plan: seq<RootInfo>, q: Path, r: Path)
    requires IsServicePath(plan, q) && (IsHostPath(plan, r) || IsServicePath(plan, r)) && IsPortStep(r)
    requires PathKey(plan, q) == PathKey(plan, r)
    ensures q == r
  {
    hide Holder, PathKey, ServiceKey, NodeId, PathFor;
    var a, p :| q == PathFor(plan, a, p) && p > 0;
    ServicePathKey(plan, a, p);
    if IsServicePath(plan, r) {
      var b, p' :| r == PathFor(plan, b, p') && p' > 0;
      ServicePathKey(plan, b, p');
      ServiceKeyDecides(plan, a, p, b, p');
    } else {
      HostPathIsHost(plan, r);
    }
  }

  lemma HostPathIsHost(plan: seq<RootInfo>, r: Path)
    requires IsHostPath(plan, r)
    ensures IsHostStep(r) && !IsPortStep(r)
  {
  }

  /** Looking a path up by its key finds its vertex exactly when there is one. */
  lemma HostLookup(index: map<string, Vertex>, at: Forest, plan: seq<RootInfo>, q: Path)
    requires NoDuplicates(Keys(plan)) && Placed(at, plan) && Indexes(index, at, plan, IsHostStep)
    requires IsHostPath(plan, q) && IsHostStep(q)
    ensures PathKey(plan, q) in index <==> q in at
    ensures q in at ==> index[PathKey(plan, q)] == at[q]
  {
    hide PathKey, IsHostPath, IsServicePath;
    if PathKey(plan, q) in index {
      var r :| r in at && r != [] && IsHostStep(r) && PathKey(plan, r) == PathKey(plan, q);
      HostPathsApart(plan, q, r);
    }
  }

  lemma ServiceLookup(index: map<string, Vertex>, at: Forest, plan: seq<RootInfo>, q: Path)
    requires Placed(at, plan) && Indexes(index, at, plan, IsPortStep)
    requires IsServicePath(plan, q) && IsPortStep(q)
    ensures PathKey(plan, q) in index <==> q in at
    ensures q in at ==> index[PathKey(plan, q)] == at[q]
  {
    hide PathKey, IsHostPath, IsServicePath;
    if PathKey(plan, q) in index {
      var r :| r in at && r != [] && IsPortStep(r) && PathKey(plan, r) == PathKey(plan, q);
      ServicePathsApart(plan, q, r);
    }
  }

  lemma IndexOneMore(index: map<string, Vertex>, at: Forest, plan: seq<RootInfo>, kind: Path -> bool, q: Path, n: Vertex)
    requires Indexes(index, at, plan, kind) && q !in at && q != [] && kind(q) && PathKey(plan, q) !in index
    ensures Indexes(index[PathKey(plan, q) := n], at[q := n], plan, kind)
    ensures |OfKind(at[q := n], kind)| == |OfKind(at, kind)| + 1
  {
    hide PathKey;
    var at', index' := at[q := n], index[PathKey(plan, q) := n];
    assert OfKind(at', kind) == OfKind(at, kind) + {q};
    forall k | k in index' ensures exists r :: r in at' && r != [] && kind(r) && PathKey(plan, r) == k {
      if k == PathKey(plan, q) {
        assert q in at';
      } else {
        var r :| r in at && r != [] && kind(r) && PathKey(plan, r) == k;
        assert r in at';
      }
    }
  }

  lemma IndexUnmoved(index: map<string, Vertex>, at: Forest, plan: seq<RootInfo>, kind: Path -> bool, q: Path, n: Vertex)
    requires Indexes(index, at, plan, kind) && q !in at && !kind(q)
    ensures Indexes(index, at[q := n], plan, kind)
    ensures OfKind(at[q := n], kind) == OfKind(at, kind)
  {
    hide PathKey;
    var at' := at[q := n];
    forall k | k in index ensures exists r :: r in at' && r != [] && kind(r) && PathKey(plan, r) == k {
      var r :| r in at && r != [] && kind(r) && PathKey(plan, r) == k;
      assert r in at';
    }
  }

  lemma RootsUnmoved(b: Board, b': Board, at: Forest, plan: seq<RootInfo>, q: Path, n: Vertex)
    requires RootsListed(b, at, plan) && |q| >= 2 && b'.roots == b.roots && b'.unplaced == b.unplaced
    ensures RootsListed(b', at[q := n], plan)
  {
  }

  // ----- the root of a finding -----

  /** Where the walk along the path of `s` stands: `k` steps taken, the maps in step with the tree. */
  ghost predicate Walking(b: Board, at: Forest, plan: seq<RootInfo>, ss: seq<Spot>, s: Spot, k: nat)
    requires 1 <= k <= |s.path|
    reads at.Values
  {
    && Grown(at, plan, ss, ss + [Cut(s, k)])
    && Tracks(b, at, plan) && s.path[..k] in at
    && AllPlaced(plan, ss) && Places(plan, s.path) && NoDuplicates(Keys(plan))
  }

  /** The forest only grows, and only by new vertices. */
  ghost predicate Extends(at: Forest, at': Forest) {
    forall q :: q in at ==> q in at' && at'[q] == at[q]
  }

  lemma PresentIsPlaced(at: Forest, plan: seq<RootInfo>, recs: seq<Spot>, ss: seq<Spot>, s: Spot, k: nat)
    requires 1 <= k <= |s.path| && Places(plan, s.path) && AllPlaced(plan, ss)
    requires Grown(at, plan, recs, ss + [Cut(s, k)])
    ensures Placed(at, plan)
  {
    hide Face, Kin, Footprint, IsHostPath, IsServicePath, PathFor, NodeId;
    forall q | q in at && |q| >= 2 ensures IsHostPath(plan, q) || IsServicePath(plan, q) {
      assert Present(plan, q, ss + [Cut(s, k)]);
      CutPath(s, k);
      ReachedSnoc(q, ss, Cut(s, k));
      if q <= s.path[..k] {
        assert q == s.path[..k][..|q|] == s.path[..|q|];
        assert Reached(q, [s]);
        ReachedIsNamed(plan, q, [s]);
      } else {
        ReachedIsNamed(plan, q, ss);
      }
    }
  }

  /** The position of the first matching key, as the loop over the sorted keys finds it. */
  method MatchRoot(rootKeys: seq<string>, host: string) returns (i: nat)
    ensures i == FirstMatch(rootKeys, host)
  {
    i := 0;
    while i < |rootKeys|
      invariant i <= FirstMatch(rootKeys, host)
    {
      if host == rootKeys[i] || HasSuffix(host, "." + rootKeys[i]) {
        break;
      }
      i := i + 1;
    }
  }

  method ChooseRoot(b: Board, rootKeys: seq<string>, byKey: map<string, Vertex>, host: string,
                    ghost at: Forest, ghost plan: seq<RootInfo>, ghost ss: seq<Spot>, ghost s: Spot)
    returns (root: Vertex, b': Board, ghost at': Forest)
    requires Grown(at, plan, ss, ss) && Tracks(b, at, plan) && AllPlaced(plan, ss) && Places(plan, s.path)
    requires NoDuplicates(Keys(plan)) && rootKeys == SortBy(LongerFirst, Keys(plan))
    requires forall i :: 0 <= i < |plan| ==> plan[i].key in byKey && RootPath(i) in at && byKey[plan[i].key] == at[RootPath(i)]
    requires s.path != [] && s.path[..1] == RootPath(RootIndex(plan, host))
    ensures Walking(b', at', plan, ss, s, 1) && at'[s.path[..1]] == root
    ensures Extends(at, at') && forall q :: q in at' && q !in at ==> fresh(at'[q])
    ensures b'.unplacedCount == b.unplacedCount + if RootIndex(plan, host) == |plan| then 1 else 0
  {
    hide Grown, Indexes, LongerFirst, AllPlaced, Places, Blank, RootsListed, SortBy;
    var m := MatchRoot(rootKeys, host);
    b', at' := b, at;
    if m < |rootKeys| {
      KeyOfMatch(plan, rootKeys, m);
      root := byKey[rootKeys[m]];
      RootThere(at, plan, ss, s);
      return;
    }
    NoMatch(plan, host);
    UnplacedRoot(b, at, plan);
    if b.unplaced.Some? {
      root := b.unplaced.value;
      b' := b.(unplacedCount := b.unplacedCount + 1);
      RootThere(at, plan, ss, s);
      TracksAgain(b, b', at, plan);
      return;
    }
    var node := Node("root:__unplaced", "(outside the declared targets)", RootKind, "", 0, NOTHING, ZERO_COUNTS, ZERO_COUNTS, [],
                     false, "", 0, []);
    UnplacedNode(plan);
    root := OpenRoot(at, plan, ss, s, node);
    at' := at[s.path[..1] := root];
    b' := b.(roots := b.roots + [root], unplaced := Some(root), unplacedCount := b.unplacedCount + 1);
    TracksNewRoot(b, b', at, plan, root);
  }

  lemma KeyOfMatch(plan: seq<RootInfo>, rootKeys: seq<string>, m: nat)
    requires rootKeys == SortBy(LongerFirst, Keys(plan)) && m < |rootKeys|
    ensures IndexOfKey(plan, rootKeys[m]) < |plan| && plan[IndexOfKey(plan, rootKeys[m])].key == rootKeys[m]
  {
    hide SortBy;
    SameElements(rootKeys, Keys(plan));
    assert rootKeys[m] in Keys(plan);
    var k :| 0 <= k < |plan| && Keys(plan)[k] == rootKeys[m];
  }

  lemma NoMatch(plan: seq<RootInfo>, host: string)
    requires FirstMatch(SortBy(LongerFirst, Keys(plan)), host) == |SortBy(LongerFirst, Keys(plan))|
    ensures RootIndex(plan, host) == |plan|
  {
  }

  lemma UnplacedRoot(b: Board, at: Forest, plan: seq<RootInfo>)
    requires Tracks(b, at, plan)
    ensures b.unplaced.Some? <==> RootPath(|plan|) in at
    ensures b.unplaced.Some? ==> b.unplaced.value == at[RootPath(|plan|)]
  {
  }

  lemma UnplacedNode(plan: seq<RootInfo>)
    ensures Blank(plan, RootPath(|plan|))
            == Node("root:__unplaced", "(outside the declared targets)", RootKind, "", 0, NOTHING, ZERO_COUNTS, ZERO_COUNTS, [],
                    false, "", 0, [])
  {
    var p := RootPath(|plan|);
    assert p[..0] == [] && p[0] == AtRoot(|plan|);
    assert NodeId(plan, p) == "root:" + "__unplaced";
  }

  lemma TracksAgain(b: Board, b': Board, at: Forest, plan: seq<RootInfo>)
    requires Tracks(b, at, plan) && b' == b.(unplacedCount := b'.unplacedCount)
    ensures Tracks(b', at, plan)
  {
  }

  lemma TracksNewRoot(b: Board, b': Board, at: Forest, plan: seq<RootInfo>, root: Vertex)
    requires Tracks(b, at, plan) && RootPath(|plan|) !in at
    requires b' == b.(roots := b.roots + [root], unplaced := Some(root), unplacedCount := b'.unplacedCount)
    ensures Tracks(b', at[RootPath(|plan|) := root], plan)
  {
    hide Indexes;
    var q := RootPath(|plan|);
    IndexUnmoved(b.hosts, at, plan, IsHostStep, q, root);
    IndexUnmoved(b.services, at, plan, IsPortStep, q, root);
  }

  // ----- the host and the service of a finding -----

  lemma VertexId(at: Forest, plan: seq<RootInfo>, recs: seq<Spot>, touches: seq<Spot>, p: Path)
    requires Grown(at, plan, recs, touches) && p in at && p != []
    ensures at[p].node.id == NodeId(plan, p)
  {
    hide NodeId, Kin, Footprint, Itoa;
    assert Right(at, plan, recs, touches, p);
    BlankKind(plan, p);
  }

  lemma WalkPlaced(b: Board, at: Forest, plan: seq<RootInfo>, ss: seq<Spot>, s: Spot, k: nat)
    requires 1 <= k <= |s.path| && Walking(b, at, plan, ss, s, k)
    ensures Placed(at, plan)
  {
    hide Grown, Tracks, Cut;
    PresentIsPlaced(at, plan, ss, ss, s, k);
  }

  lemma TracksNewHost(b: Board, b': Board, at: Forest, plan: seq<RootInfo>, q: Path, n: Vertex)
    requires Tracks(b, at, plan) && q !in at && IsHostStep(q) && PathKey(plan, q) !in b.hosts
    requires b' == b.(hosts := b.hosts[PathKey(plan, q) := n], hostCount := b.hostCount + 1)
    ensures Tracks(b', at[q := n], plan)
  {
    hide Indexes, PathKey, RootsListed;
    IndexOneMore(b.hosts, at, plan, IsHostStep, q, n);
    IndexUnmoved(b.services, at, plan, IsPortStep, q, n);
    RootsUnmoved(b, b', at, plan, q, n);
  }

  lemma TracksNewService(b: Board, b': Board, at: Forest, plan: seq<RootInfo>, q: Path, n: Vertex)
    requires Tracks(b, at, plan) && q !in at && IsPortStep(q) && PathKey(plan, q) !in b.services
    requires b' == b.(services := b.services[PathKey(plan, q) := n], serviceCount := b.serviceCount + 1)
    ensures Tracks(b', at[q := n], plan)
  {
    hide Indexes, PathKey, RootsListed;
    IndexOneMore(b.services, at, plan, IsPortStep, q, n);
    IndexUnmoved(b.hosts, at, plan, IsHostStep, q, n);
    RootsUnmoved(b, b', at, plan, q, n);
  }

  lemma HostBlank(plan: seq<RootInfo>, host: string)
    requires |Holder(plan, host)| == 2
    ensures var q := Holder(plan, host);
            Blank(plan, q) == Node("host:" + host, host, HostKind, NodeId(plan, q[..1]), 0, NOTHING, ZERO_COUNTS, ZERO_COUNTS, [],
                                   false, "", 0, [])
  {
    hide RootIndex;
    var q := Holder(plan, host);
    assert q[|q| - 1] == AtHost(host);
  }

  lemma ServiceBlank(plan: seq<RootInfo>, host: string, port: int)
    requires port > 0
    ensures var q := PathFor(plan, host, port);
            Blank(plan, q) == Node("svc:" + host + ":" + Itoa(port), Itoa(port) + "/tcp", ServiceKind, NodeId(plan, Holder(plan, host)), port,
                                   NOTHING, ZERO_COUNTS, ZERO_COUNTS, [], false, "", 0, [])
  {
    hide NodeId, Holder, Itoa;
    var q := PathFor(plan, host, port);
    ServiceId(plan, host, port);
    ServicePathKey(plan, host, port);
    assert q[|q| - 1] == AtPort(port);
  }

  lemma HolderSteps(plan: seq<RootInfo>, host: string, port: int)
    ensures var h, p := Holder(plan, host), PathFor(plan, host, port);
            && p[..1] == RootPath(RootIndex(plan, host)) && p[..|h|] == h && |p| <= DEPTH
            && (|h| == 2 <==> RootKeyOf(plan, host) != host) && h[..1] == p[..1]
            && NodeId(plan, p[..1]) == "root:" + RootKeyOf(plan, host)
            && |p| == |h| + (if port > 0 then 1 else 0)
  {
    hide RootIndex;
  }

  /** The vertex that holds the host: the root itself when it is that host, else the host's own. */
  method PlaceHost(b: Board, root: Vertex, host: string, ghost port: int,
                   ghost at: Forest, ghost plan: seq<RootInfo>, ghost ss: seq<Spot>, ghost s: Spot)
    returns (holder: Vertex, b': Board, ghost at': Forest)
    requires s.path == PathFor(plan, host, port) && Walking(b, at, plan, ss, s, 1) && at[s.path[..1]] == root
    modifies root
    ensures |Holder(plan, host)| <= |s.path| && s.path[..|Holder(plan, host)|] == Holder(plan, host)
    ensures Walking(b', at', plan, ss, s, |Holder(plan, host)|) && at'[Holder(plan, host)] == holder
    ensures Extends(at, at') && forall q :: q in at' && q !in at ==> fresh(at'[q])
    ensures b'.unplacedCount == b.unplacedCount
  {
    hide Grown, Tracks, AllPlaced, Places, Blank, Holder, PathFor, NodeId, PathKey, RootKeyOf;
    HolderSteps(plan, host, port);
    VertexId(at, plan, ss, ss + [Cut(s, 1)], s.path[..1]);
    b', at' := b, at;
    if root.node.id[5..] == host {
      assert |Holder(plan, host)| == 1 by { KeyOfId(RootKeyOf(plan, host), root.node.id, host); }
      return root, b', at';
    }
    assert |Holder(plan, host)| == 2 by { KeyOfId(RootKeyOf(plan, host), root.node.id, host); }
    ghost var q := Holder(plan, host);
    HostPathKey(plan, host);
    WalkPlaced(b, at, plan, ss, s, 1);
    assert IsHostPath(plan, q);
    TrackedHosts(b, at, plan);
    HostLookup(b.hosts, at, plan, q);
    var key := HostKey(root.node.id, host);
    if key in b.hosts {
      holder := b.hosts[key];
      WalkedBefore(at, plan, ss, s, 1);
      return;
    }
    var node := Node("host:" + host, host, HostKind, root.node.id, 0, NOTHING, ZERO_COUNTS, ZERO_COUNTS, [], false, "", 0, []);
    HostBlank(plan, host);
    holder := Sprout(at, plan, ss, s, 1, root, root, node);
    at' := at[q := holder];
    b' := b.(hosts := b.hosts[key := holder], hostCount := b.hostCount + 1);
    TracksNewHost(b, b', at, plan, q, holder);
  }

  lemma KeyOfId(key: string, id: string, host: string)
    requires id == "root:" + key
    ensures id[5..] == key
  {
  }

  lemma TrackedHosts(b: Board, at: Forest, plan: seq<RootInfo>)
    requires Tracks(b, at, plan)
    ensures Indexes(b.hosts, at, plan, IsHostStep) && Indexes(b.services, at, plan, IsPortStep)
  {
  }

  /** The vertex of an observed port: the one recorded under the holder and the port, or a new one. */
  method PlacePort(b: Board, holder: Vertex, ghost root: Vertex, host: string, port: int,
                   ghost at: Forest, ghost plan: seq<RootInfo>, ghost ss: seq<Spot>, ghost s: Spot)
    returns (target: Vertex, b': Board, ghost at': Forest)
    requires s.path == PathFor(plan, host, port) && port > 0
    requires |Holder(plan, host)| <= |s.path| && s.path[..|Holder(plan, host)|] == Holder(plan, host)
    requires Walking(b, at, plan, ss, s, |Holder(plan, host)|) && at[Holder(plan, host)] == holder
    requires s.path[..1] in at && at[s.path[..1]] == root
    modifies holder, root
    ensures Walking(b', at', plan, ss, s, |s.path|) && s.path in at' && at'[s.path] == target
    ensures Extends(at, at') && forall q :: q in at' && q !in at ==> fresh(at'[q])
    ensures b'.unplacedCount == b.unplacedCount
  {
    hide Grown, Tracks, AllPlaced, Places, Blank, Holder, PathFor, NodeId, PathKey, RootKeyOf;
    HolderSteps(plan, host, port);
    ghost var k := |Holder(plan, host)|;
    b', at' := b, at;
    assert s.path[..|s.path|] == s.path;
    ghost var q := s.path;
    VertexId(at, plan, ss, ss + [Cut(s, k)], Holder(plan, host));
    ServicePathKey(plan, host, port);
    WalkPlaced(b, at, plan, ss, s, k);
    assert IsServicePath(plan, q);
    TrackedHosts(b, at, plan);
    ServiceLookup(b.services, at, plan, q);
    var key := ServiceKey(holder.node.id, port);
    if key in b.services {
      target := b.services[key];
      WalkedBefore(at, plan, ss, s, k);
      return;
    }
    var node := Node("svc:" + host + ":" + Itoa(port), Itoa(port) + "/tcp", ServiceKind, holder.node.id, port,
                     NOTHING, ZERO_COUNTS, ZERO_COUNTS, [], false, "", 0, []);
    ServiceBlank(plan, host, port);
    target := Sprout(at, plan, ss, s, k, holder, root, node);
    at' := at[q := target];
    b' := b.(services := b.services[key := target], serviceCount := b.serviceCount + 1);
    TracksNewService(b, b', at, plan, q, target);
  }

  /** The vertex a finding is recorded at: its service when a port was observed, else its host's. */
  method PlaceService(b: Board, holder: Vertex, ghost root: Vertex, host: string, port: int,
                      ghost at: Forest, ghost plan: seq<RootInfo>, ghost ss: seq<Spot>, ghost s: Spot)
    returns (target: Vertex, b': Board, ghost at': Forest)
    requires s.path == PathFor(plan, host, port)
    requires |Holder(plan, host)| <= |s.path| && s.path[..|Holder(plan, host)|] == Holder(plan, host)
    requires Walking(b, at, plan, ss, s, |Holder(plan, host)|) && at[Holder(plan, host)] == holder
    requires s.path[..1] in at && at[s.path[..1]] == root
    modifies holder, root
    ensures Walking(b', at', plan, ss, s, |s.path|) && s.path in at' && at'[s.path] == target
    ensures Extends(at, at') && forall q :: q in at' && q !in at ==> fresh(at'[q])
    ensures b'.unplacedCount == b.unplacedCount
  {
    hide Grown, Tracks, AllPlaced, Places, Blank, Holder, PathFor, NodeId, PathKey, RootKeyOf;
    HolderSteps(plan, host, port);
    if port <= 0 {
      assert s.path[..|s.path|] == s.path;
      return holder, b, at;
    }
    target, b', at' := PlacePort(b, holder, root, host, port, at, plan, ss, s);
  }
}
