/** The half-grown tree on the heap: which vertex stands at which path, while findings are being placed. */
module SurfaceForest {
  import opened Text
  import opened Ordering
  import opened Findings
  import opened Records
  import opened SurfaceTree
  import opened SurfaceBuild
  import opened SurfaceProofs
  import opened SurfaceCounts
  import opened SurfaceShape
  import opened SurfaceHeap

  type Path = seq<Step>
  type Forest = map<Path, Vertex>

  // ----- what stands where -----

  /** A node without its children, after the findings `recs` were recorded. */
  function Face(plan: seq<RootInfo>, p: Path, recs: seq<Spot>): Node
    requires p != []
  {
    Blank(plan, p).(own := Tally(Filter(Exactly(p), recs)), findingIds := MapSeq(IdOf, Filter(Exactly(p), recs)))
  }

  /** The steps to the children of a path, once the paths of `touches` have been walked. */
  function Next(p: Path, touches: seq<Spot>): seq<Step> {
    if |p| < DEPTH then NextSteps(p, touches) else []
  }

  ghost predicate Present(plan: seq<RootInfo>, p: Path, touches: seq<Spot>) {
    p != [] && ((|p| == 1 && p[0].AtRoot? && p[0].index < |plan|) || Reached(p, touches))
  }

  ghost function Footprint(at: Forest, p: Path): set<Vertex> {
    set q | q in at && p <= q :: at[q]
  }

  /** The children of `p` are the vertices one step further, in order. */
  ghost predicate Kin(v: Vertex, at: Forest, p: Path, touches: seq<Spot>)
    reads v`children
  {
    |v.children| == |Next(p, touches)|
    && forall i :: 0 <= i < |Next(p, touches)| ==>
         p + [Next(p, touches)[i]] in at && v.children[i] == at[p + [Next(p, touches)[i]]]
  }

  ghost predicate Right(at: Forest, plan: seq<RootInfo>, recs: seq<Spot>, touches: seq<Spot>, p: Path)
    requires p in at
    reads at[p]
  {
    p != [] && at[p].node == Face(plan, p, recs) && Kin(at[p], at, p, touches) && at[p].repr == Footprint(at, p)
  }

  ghost predicate Injective(at: Forest) {
    forall p, q :: p in at && q in at && at[p] == at[q] ==> p == q
  }

  ghost predicate Grown(at: Forest, plan: seq<RootInfo>, recs: seq<Spot>, touches: seq<Spot>)
    reads at.Values
  {
    && Injective(at)
    && (forall p :: p in at <==> Present(plan, p, touches))
    && (forall p :: p in at ==> Right(at, plan, recs, touches, p))
  }

  // ----- walking one step further -----

  /** A spot cut short: the first `k` steps of its path. */
  function Cut(s: Spot, k: nat): Spot
    requires k <= |s.path|
  {
    s.(path := s.path[..k])
  }

  lemma NextIsReached(p: Path, ss: seq<Spot>, st: Step)
    ensures st in NextSteps(p, ss) <==> Reached(p + [st], ss)
  {
    hide Distinct, Filter;
    if st in NextSteps(p, ss) {
      NextStepOfSpot(p, ss, st);
    }
    if Reached(p + [st], ss) {
      var s :| s in ss && p + [st] <= s.path;
      assert p < s.path && s.path[|p|] == st by {
        assert s.path[..|p| + 1] == p + [st];
        assert p <= p + [st];
      }
      var below := Filter(Below(p), ss);
      assert s in below;
      var i :| 0 <= i < |below| && below[i] == s;
      assert MapSeq(StepAt(|p|), below)[i] == st;
    }
  }

  /** Walking one more path adds at most its own next step. */
  lemma NextSnoc(p: Path, ss: seq<Spot>, t: Spot)
    ensures NextSteps(p, ss + [t])
            == if p < t.path && t.path[|p|] !in NextSteps(p, ss) then NextSteps(p, ss) + [t.path[|p|]] else NextSteps(p, ss)
  {
    hide Distinct, Filter;
    FilterStep(Below(p), ss, t);
    if p < t.path {
      MapSnoc(StepAt(|p|), Filter(Below(p), ss), t);
      DistinctSnoc(MapSeq(StepAt(|p|), Filter(Below(p), ss)), t.path[|p|]);
    }
  }

  lemma ReachedSnoc(p: Path, ss: seq<Spot>, t: Spot)
    ensures Reached(p, ss + [t]) <==> Reached(p, ss) || p <= t.path
  {
    if Reached(p, ss) {
      var s :| s in ss && p <= s.path;
      assert s in ss + [t];
    }
    if p <= t.path {
      assert t in ss + [t];
    }
  }

  lemma PrefixesOfCut(p: Path, s: Spot, k: nat)
    requires k < |s.path|
    ensures p <= Cut(s, k + 1).path <==> p <= Cut(s, k).path || p == Cut(s, k + 1).path
    ensures p < Cut(s, k + 1).path <==> p <= Cut(s, k).path
    ensures p < Cut(s, k).path ==> Cut(s, k).path[|p|] == Cut(s, k + 1).path[|p|]
    ensures Cut(s, k + 1).path == Cut(s, k).path + [s.path[k]]
  {
    var a, b := Cut(s, k).path, Cut(s, k + 1).path;
    assert b == a + [s.path[k]];
    if p <= b && |p| <= k {
      assert p == b[..|p|] && b[..|p|] == a[..|p|];
    }
    if p <= a {
      assert p == a[..|p|] && a[..|p|] == b[..|p|];
    }
  }

  /** One step further along a path that is walked: only the vertex at the end of the walk gains a child. */
  lemma NextOneFurther(p: Path, ss: seq<Spot>, s: Spot, k: nat)
    requires k < |s.path|
    ensures var a, b := NextSteps(p, ss + [Cut(s, k)]), NextSteps(p, ss + [Cut(s, k + 1)]);
            if p == s.path[..k] && !Reached(s.path[..k + 1], ss) then b == a + [s.path[k]] else b == a
  {
    hide NextSteps, Cut, Reached;
    NextSnoc(p, ss, Cut(s, k));
    NextSnoc(p, ss, Cut(s, k + 1));
    PrefixesOfCut(p, s, k);
    CutPath(s, k);
    CutPath(s, k + 1);
    NextIsReached(p, ss, s.path[k]);
    assert s.path[..k + 1] == s.path[..k] + [s.path[k]];
    if p <= s.path[..k] && p != s.path[..k] {
      assert |p| < k;
    }
  }

  lemma CutPath(s: Spot, k: nat)
    requires k <= |s.path|
    ensures Cut(s, k).path == s.path[..k] && |Cut(s, k).path| == k
  {
  }

  // ----- a path that was walked before -----

  lemma PresentOneFurther(plan: seq<RootInfo>, p: Path, ss: seq<Spot>, s: Spot, k: nat)
    requires 1 <= k < |s.path|
    ensures Present(plan, p, ss + [Cut(s, k + 1)]) <==> Present(plan, p, ss + [Cut(s, k)]) || p == s.path[..k + 1]
    ensures Present(plan, s.path[..k + 1], ss + [Cut(s, k)]) <==> Reached(s.path[..k + 1], ss)
  {
    hide Reached;
    ReachedSnoc(p, ss, Cut(s, k));
    ReachedSnoc(p, ss, Cut(s, k + 1));
    ReachedSnoc(s.path[..k + 1], ss, Cut(s, k));
    PrefixesOfCut(p, s, k);
    CutPath(s, k);
    CutPath(s, k + 1);
  }

  lemma WalkedBefore(at: Forest, plan: seq<RootInfo>, ss: seq<Spot>, s: Spot, k: nat)
    requires 1 <= k < |s.path| && s.path[..k + 1] in at
    requires Grown(at, plan, ss, ss + [Cut(s, k)])
    ensures Grown(at, plan, ss, ss + [Cut(s, k + 1)])
  {
    hide Face, Present, Cut, Footprint, Reached, NextSteps;
    PresentOneFurther(plan, s.path[..k + 1], ss, s, k);
    forall p ensures p in at <==> Present(plan, p, ss + [Cut(s, k + 1)]) {
      PresentOneFurther(plan, p, ss, s, k);
    }
    forall p | p in at ensures Right(at, plan, ss, ss + [Cut(s, k + 1)], p) {
      assert Right(at, plan, ss, ss + [Cut(s, k)], p);
      NextOneFurther(p, ss, s, k);
    }
  }

  // ----- a path that is new -----

  lemma UnderGrows(at: Forest, q: Path, n: Vertex, p: Path)
    requires q !in at
    ensures Footprint(at[q := n], p) == Footprint(at, p) + if p <= q then {n} else {}
  {
    var at' := at[q := n];
    forall v ensures v in Footprint(at', p) <==> v in Footprint(at, p) || (p <= q && v == n) {
      if p <= q && v == n {
        assert at'[q] == v;
      }
      if v in Footprint(at, p) {
        var r :| r in at && p <= r && at[r] == v;
        assert at'[r] == v;
      }
    }
  }

  lemma RightElsewhere(at: Forest, plan: seq<RootInfo>, ss: seq<Spot>, s: Spot, k: nat, n: Vertex, p: Path)
    requires 1 <= k < |s.path| && s.path[..k + 1] !in at && p in at && p != s.path[..k] && p != []
    requires at[p].node == Face(plan, p, ss) && Kin(at[p], at, p, ss + [Cut(s, k)])
    requires at[p].repr == Footprint(at[s.path[..k + 1] := n], p)
    ensures Right(at[s.path[..k + 1] := n], plan, ss, ss + [Cut(s, k + 1)], p)
  {
    hide Face, Cut, Footprint, NextSteps;
    NextOneFurther(p, ss, s, k);
  }

  lemma RightAtBase(at: Forest, plan: seq<RootInfo>, ss: seq<Spot>, s: Spot, k: nat, n: Vertex, was: seq<Vertex>)
    requires 1 <= k < |s.path| <= DEPTH && s.path[..k + 1] !in at && s.path[..k] in at && !Reached(s.path[..k + 1], ss)
    requires var p := s.path[..k];
             && at[p].node == Face(plan, p, ss)
             && at[p].children == was + [n]
             && |was| == |Next(p, ss + [Cut(s, k)])|
             && (forall i :: 0 <= i < |was| ==>
                   p + [Next(p, ss + [Cut(s, k)])[i]] in at && was[i] == at[p + [Next(p, ss + [Cut(s, k)])[i]]])
             && at[p].repr == Footprint(at[s.path[..k + 1] := n], p)
    ensures Right(at[s.path[..k + 1] := n], plan, ss, ss + [Cut(s, k + 1)], s.path[..k])
  {
    hide Face, Cut, Footprint, NextSteps, Reached;
    var p := s.path[..k];
    NextOneFurther(p, ss, s, k);
    assert s.path[..k + 1] == p + [s.path[k]];
  }

  lemma NothingThere(ss: seq<Spot>, q: Path)
    requires !Reached(q, ss)
    ensures Filter(Exactly(q), ss) == [] && NextSteps(q, ss) == []
  {
    FilterNone(Exactly(q), ss);
    FilterNone(Below(q), ss);
    assert forall s :: s in ss ==> !(q <= s.path);
  }

  lemma BlankFace(plan: seq<RootInfo>, q: Path, ss: seq<Spot>)
    requires q != [] && !Reached(q, ss)
    ensures Face(plan, q, ss) == Blank(plan, q)
  {
    hide NodeId, Itoa, Reached;
    NothingThere(ss, q);
    assert Tally([]) == ZERO_COUNTS by { NothingTallied(); }
  }

  lemma RightAtNew(at: Forest, plan: seq<RootInfo>, ss: seq<Spot>, s: Spot, k: nat, n: Vertex)
    requires 1 <= k < |s.path| && s.path[..k + 1] !in at && !Reached(s.path[..k + 1], ss)
    requires forall p :: p in at ==> Present(plan, p, ss + [Cut(s, k)])
    requires n.node == Blank(plan, s.path[..k + 1]) && n.children == [] && n.repr == {n}
    ensures Right(at[s.path[..k + 1] := n], plan, ss, ss + [Cut(s, k + 1)], s.path[..k + 1])
  {
    hide Blank, Face, Cut, NextSteps, Footprint;
    var q := s.path[..k + 1];
    BlankFace(plan, q, ss);
    CutPath(s, k + 1);
    NextSnoc(q, ss, Cut(s, k + 1));
    NothingThere(ss, q);
    UnderGrows(at, q, n, q);
    assert Footprint(at, q) == {} by { NothingUnder(at, plan, ss, s, k); }
  }

  lemma NothingUnder(at: Forest, plan: seq<RootInfo>, ss: seq<Spot>, s: Spot, k: nat)
    requires 1 <= k < |s.path| && !Reached(s.path[..k + 1], ss)
    requires forall p :: p in at ==> Present(plan, p, ss + [Cut(s, k)])
    ensures Footprint(at, s.path[..k + 1]) == {}
  {
    hide Cut;
    var q := s.path[..k + 1];
    CutPath(s, k);
    forall p | p in at ensures !(q <= p) {
      assert Present(plan, p, ss + [Cut(s, k)]);
      ReachedSnoc(p, ss, Cut(s, k));
    }
  }

  ghost predicate OnTheWay(p: Path, s: Spot, k: nat)
    requires k < |s.path|
  {
    p == s.path[..1] || p == s.path[..k]
  }

  lemma WayUp(p: Path, s: Spot, k: nat)
    requires 1 <= k < |s.path| <= DEPTH && p != [] && p != s.path[..k + 1]
    ensures p <= s.path[..k + 1] <==> OnTheWay(p, s, k)
  {
    if p <= s.path[..k + 1] {
      assert p == s.path[..k + 1][..|p|] == s.path[..|p|];
    }
    assert s.path[..1] == s.path[..k + 1][..1] && s.path[..k] == s.path[..k + 1][..k];
  }

  /** Hangs a new vertex under `parent`, at the next step of the path of `s`. */
  method Sprout(ghost at: Forest, ghost plan: seq<RootInfo>, ghost ss: seq<Spot>, ghost s: Spot, ghost k: nat,
                parent: Vertex, ghost root: Vertex, node: Node)
    returns (n: Vertex)
    requires 1 <= k < |s.path| <= DEPTH && Grown(at, plan, ss, ss + [Cut(s, k)])
    requires s.path[..k + 1] !in at && s.path[..k] in at && s.path[..1] in at
    requires at[s.path[..k]] == parent && at[s.path[..1]] == root && node == Blank(plan, s.path[..k + 1])
    modifies parent, root
    ensures fresh(n)
    ensures Grown(at[s.path[..k + 1] := n], plan, ss, ss + [Cut(s, k + 1)])
  {
    hide Face, Blank, Cut, Footprint, NextSteps, Reached, Kin, Present, OnTheWay;
    ghost var q := s.path[..k + 1];
    ghost var base := s.path[..k];
    ghost var touches := ss + [Cut(s, k)];
    assert !Reached(q, ss) by { PresentOneFurther(plan, q, ss, s, k); }
    assert Right(at, plan, ss, touches, base) && Right(at, plan, ss, touches, s.path[..1]);
    ghost var was := parent.children;
    BaseKin(at, ss, s, k);
    n := new Vertex(node);
    parent.children := parent.children + [n];
    root.repr := root.repr + {n};
    parent.repr := parent.repr + {n};
    ghost var at' := at[q := n];
    forall p | p in at ensures Right(at', plan, ss, ss + [Cut(s, k + 1)], p) {
      assert old(Right(at, plan, ss, touches, p));
      WayUp(p, s, k);
      UnderGrows(at, q, n, p);
      SameVertex(at, p, base);
      SameVertex(at, p, s.path[..1]);
      if p == base {
        RightAtBase(at, plan, ss, s, k, n, was);
      } else {
        assert Kin(at[p], at, p, touches);
        RightElsewhere(at, plan, ss, s, k, n, p);
      }
    }
    RightAtNew(at, plan, ss, s, k, n);
    forall p ensures p in at' <==> Present(plan, p, ss + [Cut(s, k + 1)]) {
      PresentOneFurther(plan, p, ss, s, k);
    }
  }

  lemma SameVertex(at: Forest, p: Path, q: Path)
    requires Injective(at) && p in at && q in at
    ensures at[p] == at[q] <==> p == q
  {
  }

  lemma BaseKin(at: Forest, ss: seq<Spot>, s: Spot, k: nat)
    requires 1 <= k < |s.path| && s.path[..k] in at && Kin(at[s.path[..k]], at, s.path[..k], ss + [Cut(s, k)])
    ensures var p, was := s.path[..k], at[s.path[..k]].children;
            |was| == |Next(p, ss + [Cut(s, k)])|
            && forall i :: 0 <= i < |was| ==>
                 p + [Next(p, ss + [Cut(s, k)])[i]] in at && was[i] == at[p + [Next(p, ss + [Cut(s, k)])[i]]]
  {
    hide Next, Cut;
  }

  // ----- recording a finding -----

  lemma FaceSnoc(plan: seq<RootInfo>, p: Path, ss: seq<Spot>, s: Spot)
    requires p != []
    ensures var f := Face(plan, p, ss);
            Face(plan, p, ss + [s])
            == if p == s.path then f.(own := AddCount(f.own, s.severity), findingIds := f.findingIds + [s.id]) else f
  {
    hide Blank, Tally;
    FilterStep(Exactly(p), ss, s);
    if p == s.path {
      TallySnoc(Filter(Exactly(p), ss), s);
      MapSnoc(IdOf, Filter(Exactly(p), ss), s);
    }
  }

  method Record(ghost at: Forest, ghost plan: seq<RootInfo>, ghost ss: seq<Spot>, ghost s: Spot,
                target: Vertex, severity: Severity, id: string)
    requires Grown(at, plan, ss, ss + [s]) && s.severity == severity && s.id == id
    requires s.path != [] && s.path in at && at[s.path] == target
    modifies target`node
    ensures Grown(at, plan, ss + [s], ss + [s])
  {
    hide Face, Footprint, NextSteps, Kin, Present;
    assert Right(at, plan, ss, ss + [s], s.path);
    target.node := target.node.(own := AddCount(target.node.own, severity), findingIds := target.node.findingIds + [id]);
    forall p | p in at ensures Right(at, plan, ss + [s], ss + [s], p) {
      assert old(Right(at, plan, ss, ss + [s], p));
      SameVertex(at, p, s.path);
      FaceSnoc(plan, p, ss, s);
    }
  }

  // ----- the root of a path -----

  lemma NextAtRoot(p: Path, ss: seq<Spot>, s: Spot)
    requires s.path != [] && p != []
    ensures NextSteps(p, ss + [Cut(s, 1)]) == NextSteps(p, ss)
  {
    hide NextSteps;
    NextSnoc(p, ss, Cut(s, 1));
    CutPath(s, 1);
  }

  lemma PresentAtRoot(plan: seq<RootInfo>, p: Path, ss: seq<Spot>, s: Spot)
    requires s.path != []
    ensures Present(plan, p, ss + [Cut(s, 1)]) <==> Present(plan, p, ss) || p == s.path[..1]
  {
    hide Reached;
    ReachedSnoc(p, ss, Cut(s, 1));
    CutPath(s, 1);
    if p <= s.path[..1] && p != [] {
      assert p == s.path[..1][..|p|];
    }
  }

  lemma RootThere(at: Forest, plan: seq<RootInfo>, ss: seq<Spot>, s: Spot)
    requires s.path != [] && s.path[..1] in at && Grown(at, plan, ss, ss)
    ensures Grown(at, plan, ss, ss + [Cut(s, 1)])
  {
    hide Face, Present, Cut, Footprint, NextSteps;
    forall p ensures p in at <==> Present(plan, p, ss + [Cut(s, 1)]) {
      PresentAtRoot(plan, p, ss, s);
      PresentAtRoot(plan, s.path[..1], ss, s);
    }
    forall p | p in at ensures Right(at, plan, ss, ss + [Cut(s, 1)], p) {
      assert Right(at, plan, ss, ss, p);
      NextAtRoot(p, ss, s);
    }
  }

  /** Opens the root that holds what no declared target covers. */
  method OpenRoot(ghost at: Forest, ghost plan: seq<RootInfo>, ghost ss: seq<Spot>, ghost s: Spot, node: Node)
    returns (n: Vertex)
    requires s.path != [] && s.path[..1] !in at && Grown(at, plan, ss, ss)
    requires s.path[0].AtRoot? && node == Blank(plan, s.path[..1])
    ensures fresh(n) && n.node == node && n.children == []
    ensures Grown(at[s.path[..1] := n], plan, ss, ss + [Cut(s, 1)])
  {
    hide Face, Blank, Cut, Footprint, NextSteps, Present, Kin, Reached;
    ghost var q := s.path[..1];
    n := new Vertex(node);
    ghost var at' := at[q := n];
    assert !Reached(q, ss) by { NotReached(plan, q, ss); }
    forall p | p in at ensures Right(at', plan, ss, ss + [Cut(s, 1)], p) {
      assert Right(at, plan, ss, ss, p);
      NextAtRoot(p, ss, s);
      UnderGrows(at, q, n, p);
      NotBelowRoot(p, q);
      KinKept(at[p], at, q, n, p, ss, ss + [Cut(s, 1)]);
    }
    BlankFace(plan, q, ss);
    NextAtRoot(q, ss, s);
    NothingThere(ss, q);
    UnderGrows(at, q, n, q);
    assert Footprint(at, q) == {} by { NothingUnderRoot(at, plan, ss, q); }
    assert Kin(n, at', q, ss + [Cut(s, 1)]) by { NoKin(n, at', q, ss + [Cut(s, 1)]); }
    forall p ensures p in at' <==> Present(plan, p, ss + [Cut(s, 1)]) {
      PresentAtRoot(plan, p, ss, s);
    }
  }

  lemma NoKin(v: Vertex, at: Forest, p: Path, touches: seq<Spot>)
    requires v.children == [] && NextSteps(p, touches) == []
    ensures Kin(v, at, p, touches)
  {
  }

  lemma KinKept(v: Vertex, at: Forest, q: Path, n: Vertex, p: Path, a: seq<Spot>, b: seq<Spot>)
    requires Kin(v, at, p, a) && q !in at && NextSteps(p, a) == NextSteps(p, b)
    ensures Kin(v, at[q := n], p, b)
  {
    hide NextSteps;
  }

  lemma NotBelowRoot(p: Path, q: Path)
    requires |q| == 1 && p != []
    ensures p <= q ==> p == q
    ensures |p| == 1 && q <= p ==> p == q
  {
    if p <= q {
      assert p == q[..|p|];
    }
  }

  lemma NotReached(plan: seq<RootInfo>, q: Path, ss: seq<Spot>)
    requires q != [] && !Present(plan, q, ss)
    ensures !Reached(q, ss)
  {
  }

  lemma NothingUnderRoot(at: Forest, plan: seq<RootInfo>, ss: seq<Spot>, q: Path)
    requires |q| == 1 && q !in at && !Reached(q, ss)
    requires forall p :: p in at ==> Present(plan, p, ss)
    ensures Footprint(at, q) == {}
  {
    forall p | p in at ensures !(q <= p) {
      assert Present(plan, p, ss);
      NotBelowRoot(p, q);
    }
  }

  // ----- the finished tree -----

  lemma SiblingsApart(at: Forest, p: Path, a: Step, b: Step)
    requires Injective(at) && a != b
    ensures Footprint(at, p + [a]) !! Footprint(at, p + [b])
  {
    forall q, r | q in at && r in at && p + [a] <= q && p + [b] <= r ensures at[q] != at[r] {
      assert q[|p|] == (p + [a])[|p|] && r[|p|] == (p + [b])[|p|];
    }
  }

  lemma ChildBelow(at: Forest, p: Path, a: Step)
    requires Injective(at) && p in at && p + [a] in at
    ensures Footprint(at, p + [a]) < Footprint(at, p) && at[p] !in Footprint(at, p + [a]) && at[p + [a]] in Footprint(at, p + [a])
  {
    forall q | q in at && p + [a] <= q ensures p <= q && q != p {
      assert q[..|p|] == (p + [a])[..|p|] == p;
    }
    assert at[p] in Footprint(at, p);
    assert at[p] !in Footprint(at, p + [a]);
  }

  /** Once every finding is recorded, the vertex at a path is the root of exactly the tree the value model grows. */
  lemma {:induction false} GrownTree(at: Forest, plan: seq<RootInfo>, ss: seq<Spot>, p: Path)
    requires Grown(at, plan, ss, ss) && p in at && p != [] && |p| <= DEPTH
    ensures at[p].Valid() && at[p].Tree() == Grow(plan, p, ss)
    decreases DEPTH - |p|
  {
    hide Blank, Tally, Footprint, NextSteps, Present, Grow, Vertex.Valid, Vertex.Tree;
    var v := at[p];
    assert Right(at, plan, ss, ss, p);
    var steps := Next(p, ss);
    forall i | 0 <= i < |steps|
      ensures var c := v.children[i];
              c.Valid() && c.Tree() == Grow(plan, p + [steps[i]], ss)
              && c in v.repr && c.repr <= v.repr && v !in c.repr && c.repr == Footprint(at, p + [steps[i]])
    {
      assert Right(at, plan, ss, ss, p + [steps[i]]);
      GrownTree(at, plan, ss, p + [steps[i]]);
      ChildBelow(at, p, steps[i]);
    }
    assert NoDuplicates(steps) by { StepsOnce(p, ss); }
    forall i, j | 0 <= i < j < |v.children| ensures v.children[i].repr !! v.children[j].repr {
      SiblingsApart(at, p, steps[i], steps[j]);
    }
    assert v in v.repr by { SelfUnder(at, p); }
    Founded(v);
    Family(v);
    GrowShape(plan, p, ss);
    assert v.Tree().children == Grow(plan, p, ss).children;
  }

  lemma StepsOnce(p: Path, ss: seq<Spot>)
    ensures NoDuplicates(Next(p, ss))
  {
  }

  lemma SelfUnder(at: Forest, p: Path)
    requires p in at
    ensures at[p] in Footprint(at, p)
  {
  }
}
