/** internal/surface/surface.go: the passes over the tree as they are, in place on linked nodes, each proved to
    leave what the pass on values computes. `node` holds the fields of a vertex except its child list. */
module SurfaceHeap {
  import opened Text
  import opened Ordering
  import opened Findings
  import opened SurfaceTree

  class Vertex {
    var node: Node
    var children: seq<Vertex>
    ghost var repr: set<Vertex>

    constructor (node: Node)
      ensures this.node == node && children == [] && repr == {this}
      ensures Valid()
    {
      this.node := node;
      children := [];
      repr := {this};
    }

    /** A tree: every child owns a footprint inside this one, apart from this vertex and from its siblings'. */
    ghost predicate Valid()
      reads this`children, this`repr, repr`children, repr`repr
      decreases repr
    {
      && this in repr
      && (forall c :: c in children ==> c in repr && c.repr < repr && this !in c.repr && c.Valid())
      && (forall i, j :: 0 <= i < j < |children| ==> children[i].repr !! children[j].repr)
    }

    function Tree(): Node
      requires Valid()
      reads this, repr
      decreases repr
    {
      node.(children := seq(|children|, i requires 0 <= i < |children| && Valid() reads this, repr => children[i].Tree()))
    }

    /** Sums the counts of everything below into the totals, bottom-up. */
    method RollUp()
      requires Valid()
      modifies repr`node
      ensures Valid()
      ensures Tree() == SurfaceTree.RollUp(old(Tree()))
      decreases repr
    {
      hide SumCounts, WorstOf, TotalOf, TotalOfAll, Vertex.Valid, Vertex.Tree, SurfaceTree.RollUp, RollUpAll;
      ghost var was := Tree();
      ghost var ts := was.children;
      Family(this);
      var total := node.own;
      assert total == SumCounts(was.own, TotalOfAll(ts[..0])) by { NothingSummed(was.own, ts); }
      for i := 0 to |children|
        invariant node == old(node)
        invariant forall j :: 0 <= j < |children| ==>
                    children[j].Tree() == if j < i then SurfaceTree.RollUp(ts[j]) else ts[j]
        invariant total == SumCounts(was.own, TotalOfAll(ts[..i]))
      {
        children[i].RollUp();
        Family(children[i]);
        SummedNext(was.own, ts, i);
        total := SumCounts(total, children[i].node.total);
      }
      assert ts[..|ts|] == ts;
      TotalUnfolds(was);
      node := node.(total := total, severity := WorstOf(total));
      Family(this);
      assert Tree().children == RollUpAll(ts);
      RollUpUnfolds(was);
    }

    /** Sorts the finding identities, and the children after having normalised each. */
    method Normalise()
      requires Valid()
      modifies repr`node, repr`children
      ensures Valid()
      ensures Tree() == SurfaceTree.Normalise(old(Tree()))
      decreases repr
    {
      hide Vertex.Valid, Vertex.Tree, SortNodes, SortStrings, SurfaceTree.Normalise;
      ghost var was := Tree();
      ghost var ts := was.children;
      Family(this);
      ghost var cs := children;
      node := node.(findingIds := SortStrings(node.findingIds));
      for i := 0 to |children|
        invariant children == cs && node == old(node).(findingIds := SortStrings(was.findingIds))
        invariant forall j :: 0 <= j < |cs| ==>
                    cs[j].Valid() && cs[j].Tree() == if j < i then SurfaceTree.Normalise(ts[j]) else ts[j]
      {
        children[i].Normalise();
      }
      Founded(this);
      Family(this);
      assert Tree().children == NormaliseAll(ts);
      SortChildren();
      NormaliseUnfolds(was);
    }

    method ChildLimit() returns (limit: nat)
      requires Valid()
      ensures limit == Limit(Tree().children)
    {
      hide Vertex.Valid, Vertex.Tree;
      Family(this);
      limit := MAX_SERVICES_PER_HOST;
      for i := 0 to |children|
        invariant limit == MAX_SERVICES_PER_HOST
        invariant forall j :: 0 <= j < i ==> !children[j].node.kind.HostKind?
      {
        Family(children[i]);
        if children[i].node.kind.HostKind? {
          limit := MAX_HOSTS_PER_ROOT;
          return;
        }
      }
      forall j | 0 <= j < |children| ensures !Tree().children[j].kind.HostKind? {
        Family(children[j]);
      }
    }

    /** Rolls up the vertices from position `k` on, which are about to be folded away, and sums their totals. */
    method TallyTail(k: nat) returns (own: Counts)
      requires Valid() && k <= |children|
      modifies repr`node
      ensures Valid() && node == old(node)
      ensures forall j :: 0 <= j < k ==> children[j].Valid() && children[j].Tree() == old(Tree()).children[j]
      ensures own == TotalOfAll(old(Tree()).children[k..])
    {
      hide Vertex.Valid, Vertex.Tree, SumCounts, TotalOf, TotalOfAll;
      Family(this);
      ghost var ts := Tree().children;
      ghost var tail := ts[k..];
      own := ZERO_COUNTS;
      NothingInAll(tail);
      for i := k to |children|
        invariant node == old(node)
        invariant forall j :: 0 <= j < |children| && (j < k || i <= j) ==> children[j].Tree() == ts[j]
        invariant own == TotalOfAll(tail[..i - k])
      {
        children[i].RollUp();
        Family(children[i]);
        SummedTail(tail, i - k);
        own := SumCounts(own, children[i].node.total);
      }
      assert tail[..|tail|] == tail;
    }

    /** Replaces the children past the limit by one vertex that states how many they are and carries their tally. */
    method Fold() returns (hidden: nat)
      requires Valid()
      modifies repr`node, this`children, this`repr
      ensures Valid() && fresh(repr - old(repr))
      ensures Tree() == FoldHere(old(Tree()))
      ensures hidden == FoldedHere(old(Tree()))
    {
      hide Vertex.Valid, Vertex.Tree, Limit, Itoa, TotalOfAll;
      ghost var was := Tree();
      Family(this);
      var limit := ChildLimit();
      if |children| <= limit {
        return 0;
      }
      LimitIsLarge(was.children);
      var k := limit - 1;
      var own := TallyTail(k);
      Family(this);
      var rest := |children| - k;
      var more := new Vertex(
        Node(node.id + "/more", "+" + Itoa(rest) + " more", MoreKind, node.id, 0, NOTHING, own, ZERO_COUNTS, [], false, "", rest, []));
      ghost var moreTree := more.Tree();
      assert moreTree == MoreNode(was, was.children[k..]) by { LeafTree(more); }
      KeepAndAdd(k, more);
      assert Tree().children == was.children[..k] + [moreTree];
      hidden := rest;
    }

    /** Keeps the first `k` children and hangs `more` behind them. */
    method KeepAndAdd(k: nat, more: Vertex)
      requires Valid() && k <= |children| && more.Valid() && more.repr == {more} && more !in repr
      modifies this`children, this`repr
      ensures Valid() && repr == old(repr) + {more} && node == old(node)
      ensures Tree() == old(Tree()).(children := old(Tree()).children[..k] + [old(more.Tree())])
    {
      hide Vertex.Valid, Vertex.Tree;
      ghost var ts := Tree().children;
      ghost var moreTree := more.Tree();
      Family(this);
      ghost var cs := children;
      children := children[..k] + [more];
      repr := repr + {more};
      assert forall j :: 0 <= j < k ==> children[j] == cs[j];
      Founded(this);
      Family(this);
      assert Tree().children == ts[..k] + [moreTree];
    }

    /** Enforces the drawing limits here and below; reports how many siblings were folded away. */
    method Trim() returns (hidden: nat)
      requires Valid()
      modifies repr
      ensures Valid() && fresh(repr - old(repr))
      ensures Tree() == SurfaceTree.Trim(old(Tree()))
      ensures hidden == Folded(old(Tree()))
      decreases Height(Tree()), 2
    {
      hide Vertex.Valid, Vertex.Tree, FoldHere, SurfaceTree.Trim, Folded, FoldedHere, Height, TrimAll, FoldedAll;
      ghost var was := Tree();
      Family(this);
      hidden := Fold();
      FoldedUnfolds(was);
      TrimUnfolds(was);
      Family(this);
      forall i | 0 <= i < |children| ensures Height(children[i].Tree()) < Height(was) {
        FoldedChildIsLower(was, i);
      }
      var below := TrimChildren(Height(was));
      hidden := hidden + below;
    }

    method TrimChild(ghost cs: seq<Vertex>, ghost ts: seq<Node>, i: nat, ghost all: set<Vertex>, ghost height: nat)
      returns (hidden: nat)
      requires Brood(this, cs, ts, i, all) && i < |cs| == |children| && children == cs && Height(ts[i]) < height
      modifies children[i].repr
      ensures Brood(this, cs, ts, i + 1, all + cs[i].repr)
      ensures forall c :: c in cs ==> c != this && this !in c.repr
      ensures fresh(cs[i].repr - old(cs[i].repr))
      ensures hidden == Folded(ts[i])
      decreases height, 0
    {
      hide Vertex.Valid, Vertex.Tree, SurfaceTree.Trim, Folded, Height;
      ghost var fp := cs[i].repr;
      assert forall j :: 0 <= j < |cs| && j != i ==> cs[j] !in fp && cs[j].repr !! fp;
      hidden := children[i].Trim();
      assert forall j :: 0 <= j < |cs| && j != i ==> cs[j].repr == old(cs[j].repr) && cs[j].repr !! cs[i].repr;
      Family(cs[i]);
    }

    method TrimChildren(ghost height: nat) returns (hidden: nat)
      requires Valid()
      requires forall i :: 0 <= i < |children| ==> children[i].Valid() && Height(children[i].Tree()) < height
      modifies repr
      ensures Valid() && fresh(repr - old(repr))
      ensures Tree() == old(Tree()).(children := TrimAll(old(Tree()).children))
      ensures hidden == FoldedAll(old(Tree()).children, |old(Tree()).children|)
      decreases height, 1
    {
      hide Vertex.Valid, Vertex.Tree, SurfaceTree.Trim, Folded, Height, Brood, TrimAll;
      ghost var ts := Tree().children;
      ghost var cs := children;
      ghost var own := node;
      Family(this);
      hidden := 0;
      BroodStarts(this, ts);
      for i := 0 to |children|
        invariant children == cs && node == own && fresh(repr - old(repr))
        invariant Brood(this, cs, ts, i, repr)
        invariant hidden == FoldedAll(ts, i)
      {
        BroodMember(this, cs, ts, i, repr);
        var h := TrimChild(cs, ts, i, repr, height);
        hidden := hidden + h;
        repr := repr + cs[i].repr;
      }
      BroodEnds(this, ts);
    }

    method SortChildren()
      requires Valid()
      modifies this`children
      ensures Valid()
      ensures Tree() == old(Tree()).(children := SortNodes(old(Tree().children)))
    {
      hide Vertex.Valid, Vertex.Tree, SortBy, SortNodes;
      ghost var ts := Tree().children;
      ghost var cs := children;
      Family(this);
      var sorted, from := SortVertices(children, ts);
      children := sorted;
      Reordered(this, cs, from);
      forall i | 0 <= i < |sorted| ensures children[i].Valid() && children[i].Tree() == SortNodes(ts)[i] {
        assert this !in cs[from[i]].repr;
      }
      Family(this);
      assert Tree().children == SortNodes(ts);
    }
  }

  // ----- folding -----

  /** The children during a pass: trees apart from each other within `all`, the first `i` of them trimmed. */
  ghost predicate Brood(v: Vertex, cs: seq<Vertex>, ts: seq<Node>, i: int, all: set<Vertex>)
    reads cs
    reads set c, x | c in cs && x in c.repr :: x
  {
    && |cs| == |ts| && v in all
    && (forall j :: 0 <= j < |cs| ==> cs[j] in cs[j].repr && cs[j].repr <= all && v !in cs[j].repr)
    && (forall j, l :: 0 <= j < |cs| && 0 <= l < |cs| && j != l ==> cs[j].repr !! cs[l].repr)
    && (forall j :: 0 <= j < |cs| ==> cs[j].Valid() && cs[j].Tree() == if j < i then SurfaceTree.Trim(ts[j]) else ts[j])
  }

  lemma BroodStarts(v: Vertex, ts: seq<Node>)
    requires v.Valid() && ts == v.Tree().children
    ensures Brood(v, v.children, ts, 0, v.repr)
  {
    hide Vertex.Valid, Vertex.Tree;
    Family(v);
  }

  lemma BroodEnds(v: Vertex, ts: seq<Node>)
    requires Brood(v, v.children, ts, |v.children|, v.repr)
    ensures v.Valid() && v.Tree() == v.node.(children := TrimAll(ts))
  {
    hide Vertex.Valid, Vertex.Tree, SurfaceTree.Trim;
    Founded(v);
    Family(v);
    assert v.Tree().children == TrimAll(ts);
  }

  lemma BroodMember(v: Vertex, cs: seq<Vertex>, ts: seq<Node>, i: int, all: set<Vertex>)
    requires Brood(v, cs, ts, i, all) && 0 <= i < |cs|
    ensures cs[i].Valid() && cs[i].Tree() == ts[i] && cs[i].repr <= all && v !in cs[i].repr
  {
    hide Vertex.Valid, Vertex.Tree;
  }

  function Height(n: Node): nat
    decreases n, 1
  {
    HeightAll(n.children)
  }

  function HeightAll(ns: seq<Node>): nat
    decreases ns, 0
  {
    if ns == [] then 0
    else
      var h, t := 1 + Height(ns[0]), HeightAll(ns[1..]);
      if h < t then t else h
  }

  lemma {:induction false} ChildIsLower(ns: seq<Node>, i: nat)
    requires i < |ns|
    ensures Height(ns[i]) < HeightAll(ns)
  {
    if i > 0 {
      ChildIsLower(ns[1..], i - 1);
    }
  }

  /** The first half of `Trim`: the tail of this node's children replaced, nothing below touched. */
  function FoldHere(n: Node): Node {
    var ns := n.children;
    var k := Limit(ns) - 1;
    if |ns| > Limit(ns) then n.(children := ns[..k] + [MoreNode(n, ns[k..])]) else n
  }

  function FoldedHere(n: Node): nat {
    if |n.children| > Limit(n.children) then |n.children| - (Limit(n.children) - 1) else 0
  }

  lemma LeafStays(m: Node)
    requires m.children == []
    ensures SurfaceTree.Trim(m) == m && Folded(m) == 0 && Height(m) == 0
  {
    assert m.(children := []) == m;
  }

  lemma {:induction false} FoldedAllPrefix(ns: seq<Node>, ms: seq<Node>, k: nat)
    requires k <= |ns| && k <= |ms| && ns[..k] == ms[..k]
    ensures FoldedAll(ns, k) == FoldedAll(ms, k)
  {
    hide Folded;
    if k > 0 {
      assert ns[..k][k - 1] == ms[..k][k - 1];
      assert ns[..k - 1] == ns[..k][..k - 1] && ms[..k - 1] == ms[..k][..k - 1];
      FoldedAllPrefix(ns, ms, k - 1);
    }
  }

  /** `Trim` is folding here and then trimming every child that is left, the new one included. */
  lemma TrimUnfolds(n: Node)
    ensures var f := FoldHere(n);
            SurfaceTree.Trim(n) == f.(children := TrimAll(f.children)) && f == n.(children := f.children)
  {
    hide Limit, MoreNode, Itoa;
    var ns := n.children;
    var f := FoldHere(n);
    if |ns| > Limit(ns) {
      var k := Limit(ns) - 1;
      var more := MoreNode(n, ns[k..]);
      MoreIsLeaf(n, ns[k..]);
      LeafStays(more);
      TrimOfFolded(ns, k, more);
    }
  }

  lemma TrimOfFolded(ns: seq<Node>, k: nat, more: Node)
    requires k <= |ns| && SurfaceTree.Trim(more) == more
    ensures TrimAll(ns[..k] + [more]) == TrimAll(ns)[..k] + [more]
  {
    hide SurfaceTree.Trim;
  }

  lemma FoldedUnfolds(n: Node)
    ensures var f := FoldHere(n); Folded(n) == FoldedHere(n) + FoldedAll(f.children, |f.children|)
  {
    hide Limit, MoreNode, FoldedAll;
    var ns := n.children;
    if |ns| > Limit(ns) {
      var k := Limit(ns) - 1;
      var more := MoreNode(n, ns[k..]);
      MoreIsLeaf(n, ns[k..]);
      FoldedAllMore(ns, k, more);
    }
  }

  lemma FoldedAllMore(ns: seq<Node>, k: nat, more: Node)
    requires k <= |ns| && more.children == []
    ensures FoldedAll(ns[..k] + [more], k + 1) == FoldedAll(ns, k)
  {
    hide Folded;
    LeafStays(more);
    assert (ns[..k] + [more])[..k] == ns[..k];
    FoldedAllPrefix(ns[..k] + [more], ns, k);
  }

  lemma MoreIsLeaf(n: Node, rest: seq<Node>)
    ensures MoreNode(n, rest).children == []
  {
  }

  lemma {:induction false} LowerAll(ns: seq<Node>, h: nat)
    requires forall i :: 0 <= i < |ns| ==> Height(ns[i]) < h
    ensures HeightAll(ns) <= h
  {
    if ns != [] {
      assert forall i :: 0 <= i < |ns[1..]| ==> ns[1..][i] == ns[i + 1];
      LowerAll(ns[1..], h);
    }
  }

  /** Folding does not make the tree higher. */
  lemma FoldedChildIsLower(n: Node, i: nat)
    requires i < |FoldHere(n).children|
    ensures Height(FoldHere(n).children[i]) < Height(n)
  {
    hide Limit, MoreNode;
    var ns := n.children;
    if |ns| > Limit(ns) {
      var k := Limit(ns) - 1;
      ChildIsLower(ns, if i < k then i else 0);
      MoreIsLeaf(n, ns[k..]);
      LeafStays(MoreNode(n, ns[k..]));
    } else {
      ChildIsLower(ns, i);
    }
  }

  /** The converse: children that are trees of their own, apart from each other, make a tree. */
  lemma Founded(v: Vertex)
    requires v in v.repr
    requires forall i :: 0 <= i < |v.children| ==>
               v.children[i].Valid() && v.children[i] in v.repr && v.children[i].repr <= v.repr && v !in v.children[i].repr
    requires forall i, j :: 0 <= i < j < |v.children| ==> v.children[i].repr !! v.children[j].repr
    ensures v.Valid()
  {
  }

  lemma NormaliseUnfolds(n: Node)
    ensures SurfaceTree.Normalise(n)
            == n.(findingIds := SortStrings(n.findingIds), children := SortNodes(NormaliseAll(n.children)))
  {
  }

  lemma Reordered(v: Vertex, cs: seq<Vertex>, from: seq<nat>)
    requires v in v.repr
    requires forall i :: 0 <= i < |cs| ==> cs[i].Valid() && cs[i] in v.repr && cs[i].repr <= v.repr && v !in cs[i].repr
    requires forall i, j :: 0 <= i < |cs| && 0 <= j < |cs| && i != j ==> cs[i].repr !! cs[j].repr
    requires |from| == |v.children| && forall i :: 0 <= i < |from| ==> from[i] < |cs| && v.children[i] == cs[from[i]]
    requires forall i, j :: 0 <= i < j < |from| ==> from[i] != from[j]
    ensures v.Valid()
  {
    hide Vertex.Valid;
    forall i, j | 0 <= i < j < |v.children| ensures v.children[i].repr !! v.children[j].repr {
      assert from[i] != from[j];
    }
    Founded(v);
  }

  /** What a valid vertex knows of its children, and its tree in terms of theirs. */
  lemma Family(v: Vertex)
    requires v.Valid()
    ensures v in v.repr
    ensures forall i :: 0 <= i < |v.children| ==>
              v.children[i].Valid() && v.children[i] in v.repr && v.children[i].repr < v.repr && v !in v.children[i].repr
    ensures forall i :: 0 <= i < |v.children| ==> v.children[i] in v.children[i].repr
    ensures forall i, j :: 0 <= i < |v.children| && 0 <= j < |v.children| && i != j ==> v.children[i].repr !! v.children[j].repr
    ensures |v.Tree().children| == |v.children|
    ensures forall i :: 0 <= i < |v.children| ==> v.children[i].Valid() && v.Tree().children[i] == v.children[i].Tree()
    ensures v.Tree() == v.node.(children := v.Tree().children)
  {
  }

  // ----- sorting siblings -----

  predicate KeyLeq(a: (Node, nat), b: (Node, nat)) { NodeLeq(a.0, b.0) }

  function KeyNode(k: (Node, nat)): Node { k.0 }

  lemma {:induction false} InsertKey(k: (Node, nat), ks: seq<(Node, nat)>)
    ensures MapSeq(KeyNode, InsertSorted(KeyLeq, k, ks)) == InsertSorted(NodeLeq, k.0, MapSeq(KeyNode, ks))
  {
    hide NodeLeq;
    if ks == [] || KeyLeq(k, ks[0]) {
      NodesOfCons(k, ks);
    } else {
      InsertKey(k, ks[1..]);
      NodesOfCons(ks[0], ks[1..]);
      NodesOfCons(ks[0], InsertSorted(KeyLeq, k, ks[1..]));
      assert [ks[0]] + ks[1..] == ks && MapSeq(KeyNode, ks)[1..] == MapSeq(KeyNode, ks[1..]);
    }
  }

  lemma NodesOfCons(k: (Node, nat), ks: seq<(Node, nat)>)
    ensures MapSeq(KeyNode, [k] + ks) == [k.0] + MapSeq(KeyNode, ks)
  {
  }

  /** Sorting positions by their nodes sorts the nodes. */
  lemma {:induction false} SortKeys(ks: seq<(Node, nat)>)
    ensures MapSeq(KeyNode, SortBy(KeyLeq, ks)) == SortNodes(MapSeq(KeyNode, ks))
  {
    hide NodeLeq, InsertSorted;
    if ks != [] {
      SortKeys(ks[1..]);
      assert MapSeq(KeyNode, ks)[1..] == MapSeq(KeyNode, ks[1..]);
      InsertKey(ks[0], SortBy(KeyLeq, ks[1..]));
    }
  }

  ghost predicate Positions(ks: seq<(Node, nat)>, n: nat) {
    |ks| == n && (forall i :: 0 <= i < n ==> ks[i].1 < n) && forall i, j :: 0 <= i < j < n ==> ks[i].1 != ks[j].1
  }

  lemma SortedPositions(ks: seq<(Node, nat)>)
    requires forall i :: 0 <= i < |ks| ==> ks[i].1 == i
    ensures var r := SortBy(KeyLeq, ks);
            Positions(r, |ks|) && forall i :: 0 <= i < |ks| ==> r[i].1 < |ks| && r[i].0 == ks[r[i].1].0
  {
    hide SortBy;
    var r := SortBy(KeyLeq, ks);
    NoDuplicatesPermutes(ks, r);
    SameElements(r, ks);
    forall i | 0 <= i < |r| ensures r[i].1 < |ks| && r[i] == ks[r[i].1] {
      assert r[i] in ks;
    }
    forall i, j | 0 <= i < j < |r| ensures r[i].1 != r[j].1 {
      assert r[i] != r[j];
    }
  }

  /** The vertices in the order of their trees. */
  method SortVertices(vs: seq<Vertex>, ghost ts: seq<Node>) returns (r: seq<Vertex>, ghost from: seq<nat>)
    requires |ts| == |vs| && forall i :: 0 <= i < |vs| ==> vs[i].Valid() && vs[i].Tree() == ts[i]
    ensures |r| == |from| == |vs|
    ensures forall i :: 0 <= i < |r| ==> from[i] < |vs| && r[i] == vs[from[i]]
    ensures forall i, j :: 0 <= i < j < |r| ==> from[i] != from[j]
    ensures forall i :: 0 <= i < |r| ==> r[i].Valid() && r[i].Tree() == SortNodes(ts)[i]
  {
    hide Vertex.Valid, Vertex.Tree, SortBy;
    var ks: seq<(Node, nat)> := [];
    for i := 0 to |vs|
      invariant |ks| == i && forall j :: 0 <= j < i ==> ks[j] == (ts[j], j)
    {
      ks := ks + [(vs[i].Tree(), i)];
    }
    assert MapSeq(KeyNode, ks) == ts;
    SortKeys(ks);
    SortedPositions(ks);
    var sorted := SortBy(KeyLeq, ks);
    r, from := [], [];
    for i := 0 to |sorted|
      invariant |r| == |from| == i
      invariant forall j :: 0 <= j < i ==> from[j] == sorted[j].1 && r[j] == vs[sorted[j].1]
    {
      r := r + [vs[sorted[i].1]];
      from := from + [sorted[i].1];
    }
    forall i | 0 <= i < |r| ensures r[i].Valid() && r[i].Tree() == SortNodes(ts)[i] {
      assert MapSeq(KeyNode, sorted)[i] == sorted[i].0;
    }
  }

  lemma LeafTree(v: Vertex)
    requires v.Valid() && v.children == []
    ensures v.Tree() == v.node.(children := [])
  {
  }

  lemma LimitIsLarge(ns: seq<Node>)
    ensures Limit(ns) > 1
  {
  }

  lemma NothingInAll(ts: seq<Node>)
    ensures TotalOfAll(ts[..0]) == ZERO_COUNTS
  {
  }

  lemma SummedTail(ts: seq<Node>, i: nat)
    requires i < |ts|
    ensures TotalOfAll(ts[..i + 1]) == SumCounts(TotalOfAll(ts[..i]), SurfaceTree.RollUp(ts[i]).total)
  {
    hide SumCounts, TotalOf;
    TakeNext(ts, i);
    TotalOfConcat(ts[..i], [ts[i]]);
    TotalOfCons(ts[i], []);
    assert [ts[i]] + [] == [ts[i]];
    SumAssociative(TotalOf(ts[i]), ZERO_COUNTS, ZERO_COUNTS);
  }

  lemma NothingSummed(own: Counts, ts: seq<Node>)
    ensures own == SumCounts(own, TotalOfAll(ts[..0]))
  {
    SumAssociative(own, ZERO_COUNTS, ZERO_COUNTS);
  }

  lemma SummedNext(own: Counts, ts: seq<Node>, i: nat)
    requires i < |ts|
    ensures SumCounts(own, TotalOfAll(ts[..i + 1]))
            == SumCounts(SumCounts(own, TotalOfAll(ts[..i])), SurfaceTree.RollUp(ts[i]).total)
  {
    hide SumCounts, TotalOf;
    TakeNext(ts, i);
    TotalOfConcat(ts[..i], [ts[i]]);
    TotalOfCons(ts[i], []);
    assert [ts[i]] + [] == [ts[i]];
    SumAssociative(TotalOf(ts[i]), ZERO_COUNTS, ZERO_COUNTS);
    SumAssociative(own, TotalOfAll(ts[..i]), TotalOf(ts[i]));
  }

  lemma RollUpUnfolds(n: Node)
    ensures SurfaceTree.RollUp(n) == n.(total := TotalOf(n), severity := WorstOf(TotalOf(n)), children := RollUpAll(n.children))
  {
  }

  lemma TotalUnfolds(n: Node)
    ensures TotalOf(n) == SumCounts(n.own, TotalOfAll(n.children))
  {
  }
}
