/** internal/surface/surface.go: the tree of the attack surface and the passes over it (order, fold, roll
    up), on values. `SurfaceBuild` grows the tree from findings, `SurfaceHeap` runs the passes in place. */
module SurfaceTree {
  import opened Text
  import opened Ordering
  import opened Findings

  const MAX_HOSTS_PER_ROOT := 24
  const MAX_SERVICES_PER_HOST := 14

  datatype Kind = RootKind | HostKind | ServiceKind | MoreKind

  datatype Node = Node(
    id: string, caption: string, kind: Kind, parent: string, port: int,
    severity: Severity, own: Counts, total: Counts, findingIds: seq<string>,
    skipped: bool, reason: string, hidden: nat, children: seq<Node>)

  // ----- counts -----

  const NOTHING := OtherSeverity("")

  function AddCount(c: Counts, s: Severity): Counts {
    if s.OtherSeverity? then c else Bump(c, s)
  }

  function SumCounts(a: Counts, b: Counts): Counts {
    Counts(a.critical + b.critical, a.high + b.high, a.medium + b.medium,
           a.low + b.low, a.info + b.info, a.total + b.total)
  }

  function WorstOf(c: Counts): Severity {
    if c.critical > 0 then Critical
    else if c.high > 0 then High
    else if c.medium > 0 then Medium
    else if c.low > 0 then Low
    else if c.info > 0 then Info
    else NOTHING
  }

  lemma SumAssociative(a: Counts, b: Counts, c: Counts)
    ensures SumCounts(SumCounts(a, b), c) == SumCounts(a, SumCounts(b, c))
    ensures SumCounts(a, b) == SumCounts(b, a)
    ensures SumCounts(a, ZERO_COUNTS) == a
  {
  }

  /** The findings recorded at a node and everything below it. */
  function TotalOf(n: Node): Counts
    decreases n, 1
  {
    SumCounts(n.own, TotalOfAll(n.children))
  }

  function TotalOfAll(ns: seq<Node>): Counts
    decreases ns, 0
  {
    if ns == [] then ZERO_COUNTS else SumCounts(TotalOf(ns[0]), TotalOfAll(ns[1..]))
  }

  lemma TotalOfCons(n: Node, ns: seq<Node>)
    ensures TotalOfAll([n] + ns) == SumCounts(TotalOf(n), TotalOfAll(ns))
  {
    assert ([n] + ns)[1..] == ns;
  }

  lemma {:induction false} TotalOfConcat(a: seq<Node>, b: seq<Node>)
    ensures TotalOfAll(a + b) == SumCounts(TotalOfAll(a), TotalOfAll(b))
  {
    hide TotalOf;
    if a == [] {
      assert a + b == b;
    } else {
      hide SumCounts;
      TotalOfConcat(a[1..], b);
      SplitHead(a);
      ConcatAssociative([a[0]], a[1..], b);
      TotalOfCons(a[0], a[1..] + b);
      SumAssociative(TotalOf(a[0]), TotalOfAll(a[1..]), TotalOfAll(b));
    }
  }

  lemma {:induction false} TotalOfPermutation(a: seq<Node>, b: seq<Node>)
    requires multiset(a) == multiset(b)
    ensures TotalOfAll(a) == TotalOfAll(b)
    decreases |a|
  {
    hide TotalOf, SumCounts;
    SameElements(a, b);
    if a != [] {
      SplitHead(a);
      assert a[0] in b;
      var i :| 0 <= i < |b| && b[i] == a[0];
      SplitAt(b, i);
      RemoveAt(b, i);
      RemoveFirst(a);
      TotalOfPermutation(a[1..], b[..i] + b[i + 1..]);
      TotalOfConcat(b[..i], b[i + 1..]);
      TotalOfConcat(b[..i], [b[i]] + b[i + 1..]);
      TotalOfCons(b[i], b[i + 1..]);
      var x, y, z := TotalOfAll(b[..i]), TotalOf(b[i]), TotalOfAll(b[i + 1..]);
      SumAssociative(x, y, z);
      SumAssociative(y, x, z);
      SumAssociative(x, y, ZERO_COUNTS);
    }
  }

  // ----- order among siblings -----

  function MaxInt(a: int, b: int): int { if a < b then b else a }

  /** The rank a node is ordered by: its own worst finding, or the best rank below it when it has none. */
  function WorstOwn(n: Node): int
    decreases n, 1
  {
    if n.own.critical > 0 then 5
    else if n.own.high > 0 then 4
    else if n.own.medium > 0 then 3
    else if n.own.low > 0 then 2
    else if n.own.info > 0 then 1
    else WorstOwnAll(n.children)
  }

  function WorstOwnAll(ns: seq<Node>): int
    decreases ns, 0
  {
    if ns == [] then 0 else MaxInt(WorstOwn(ns[0]), WorstOwnAll(ns[1..]))
  }

  predicate NodeLeq(a: Node, b: Node) {
    if a.kind.MoreKind? != b.kind.MoreKind? then b.kind.MoreKind?
    else if WorstOwn(a) != WorstOwn(b) then WorstOwn(a) > WorstOwn(b)
    else if a.port != b.port then a.port < b.port
    else if a.caption != b.caption then StrLeq(a.caption, b.caption)
    else StrLeq(a.id, b.id)
  }

  lemma NodeOrder()
    ensures TotalPreorder(NodeLeq)
    ensures forall a, b :: NodeLeq(a, b) && NodeLeq(b, a) ==> a.port == b.port && a.caption == b.caption && a.id == b.id
    ensures forall a, b :: NodeLeq(a, b) && !a.kind.MoreKind? && !b.kind.MoreKind? ==>
              && WorstOwn(a) >= WorstOwn(b)
              && (WorstOwn(a) == WorstOwn(b) ==> a.port <= b.port)
              && (WorstOwn(a) == WorstOwn(b) && a.port == b.port ==> StrLeq(a.caption, b.caption))
  {
    hide WorstOwn, StrLeq;
    StrOrder();
    forall a, b ensures NodeLeq(a, b) || NodeLeq(b, a) {
      StrTotal(a.caption, b.caption);
      StrTotal(a.id, b.id);
    }
    forall a, b, c | NodeLeq(a, b) && NodeLeq(b, c) ensures NodeLeq(a, c) {
      NodeTransitive(a, b, c);
    }
    forall a, b | NodeLeq(a, b) && NodeLeq(b, a)
      ensures a.port == b.port && a.caption == b.caption && a.id == b.id {
      StrOrder();
    }
  }

  lemma NodeTransitive(a: Node, b: Node, c: Node)
    requires NodeLeq(a, b) && NodeLeq(b, c)
    ensures NodeLeq(a, c)
  {
    hide WorstOwn, StrLeq;
    StrOrder();
  }

  function SortNodes(ns: seq<Node>): (r: seq<Node>)
    ensures multiset(r) == multiset(ns) && |r| == |ns|
  {
    SortBy(NodeLeq, ns)
  }

  function Normalise(n: Node): Node
    decreases n, 1
  {
    n.(findingIds := SortStrings(n.findingIds), children := SortNodes(NormaliseAll(n.children)))
  }

  function NormaliseAll(ns: seq<Node>): (r: seq<Node>)
    ensures |r| == |ns|
    ensures forall i :: 0 <= i < |ns| ==> r[i] == Normalise(ns[i])
    decreases ns, 0
  {
    if ns == [] then [] else [Normalise(ns[0])] + NormaliseAll(ns[1..])
  }

  // ----- folding long child lists -----

  predicate HasHost(ns: seq<Node>) { exists i :: 0 <= i < |ns| && ns[i].kind.HostKind? }

  /** The limit follows what the children are, not what the parent is. */
  function Limit(ns: seq<Node>): (l: nat)
    ensures l > 1
  {
    if HasHost(ns) then MAX_HOSTS_PER_ROOT else MAX_SERVICES_PER_HOST
  }

  function MoreNode(n: Node, rest: seq<Node>): Node {
    Node(n.id + "/more", "+" + Itoa(|rest|) + " more", MoreKind, n.id, 0, NOTHING, TotalOfAll(rest),
         ZERO_COUNTS, [], false, "", |rest|, [])
  }

  /** The folded tree. */
  function Trim(n: Node): Node
    decreases n, 1
  {
    var ns := n.children;
    if |ns| > Limit(ns) then
      var k := Limit(ns) - 1;
      n.(children := TrimAll(ns)[..k] + [MoreNode(n, ns[k..])])
    else
      n.(children := TrimAll(ns))
  }

  function TrimAll(ns: seq<Node>): (r: seq<Node>)
    ensures |r| == |ns|
    ensures forall i :: 0 <= i < |ns| ==> r[i] == Trim(ns[i])
    decreases ns, 0
  {
    if ns == [] then [] else [Trim(ns[0])] + TrimAll(ns[1..])
  }

  /** How many siblings the "+n more" nodes of a tree stand for. */
  function HiddenIn(n: Node): nat
    decreases n, 1
  {
    n.hidden + HiddenInAll(n.children)
  }

  function HiddenInAll(ns: seq<Node>): nat
    decreases ns, 0
  {
    if ns == [] then 0 else HiddenIn(ns[0]) + HiddenInAll(ns[1..])
  }

  // ----- rolling up -----

  function RollUp(n: Node): Node
    decreases n, 1
  {
    n.(total := TotalOf(n), severity := WorstOf(TotalOf(n)), children := RollUpAll(n.children))
  }

  function RollUpAll(ns: seq<Node>): (r: seq<Node>)
    ensures |r| == |ns|
    ensures forall i :: 0 <= i < |ns| ==> r[i] == RollUp(ns[i])
    decreases ns, 0
  {
    if ns == [] then [] else [RollUp(ns[0])] + RollUpAll(ns[1..])
  }

  // ----- what the passes keep -----

  lemma {:induction false} NormaliseKeepsTotal(n: Node)
    ensures TotalOf(Normalise(n)) == TotalOf(n)
    decreases n, 1
  {
    NormaliseAllKeepsTotal(n.children);
    TotalOfPermutation(NormaliseAll(n.children), SortNodes(NormaliseAll(n.children)));
  }

  lemma {:induction false} NormaliseAllKeepsTotal(ns: seq<Node>)
    ensures TotalOfAll(NormaliseAll(ns)) == TotalOfAll(ns)
    decreases ns, 0
  {
    hide Normalise, TotalOf;
    if ns != [] {
      NormaliseKeepsTotal(ns[0]);
      NormaliseAllKeepsTotal(ns[1..]);
      TotalOfCons(Normalise(ns[0]), NormaliseAll(ns[1..]));
    }
  }

  lemma MoreNodeTotal(n: Node, rest: seq<Node>)
    ensures TotalOf(MoreNode(n, rest)) == TotalOfAll(rest)
  {
    hide Itoa, SumCounts;
    var m := MoreNode(n, rest);
    assert m.own == TotalOfAll(rest) && m.children == [];
    SumAssociative(m.own, ZERO_COUNTS, ZERO_COUNTS);
    assert TotalOf(m) == SumCounts(m.own, TotalOfAll([]));
  }

  lemma {:induction false} TrimKeepsTotal(n: Node)
    ensures TotalOf(Trim(n)) == TotalOf(n)
    decreases n, 1
  {
    var ns := n.children;
    TrimAllKeepsTotal(ns);
    if |ns| > Limit(ns) {
      var k := Limit(ns) - 1;
      FoldKeepsTotal(n, k);
    }
  }

  lemma {:induction false} TrimAllKeepsTotal(ns: seq<Node>)
    ensures TotalOfAll(TrimAll(ns)) == TotalOfAll(ns)
    ensures forall k :: 0 <= k <= |ns| ==> TotalOfAll(TrimAll(ns)[k..]) == TotalOfAll(ns[k..])
    decreases ns, 0
  {
    hide Trim, TotalOf;
    if ns != [] {
      var t := TrimAll(ns);
      TrimKeepsTotal(ns[0]);
      TrimAllKeepsTotal(ns[1..]);
      TotalOfCons(Trim(ns[0]), TrimAll(ns[1..]));
      forall k | 0 <= k <= |ns| ensures TotalOfAll(t[k..]) == TotalOfAll(ns[k..]) {
        if k > 0 {
          assert t[k..] == TrimAll(ns[1..])[k - 1..];
          assert ns[k..] == ns[1..][k - 1..];
        } else {
          assert t[0..] == t && ns[0..] == ns;
        }
      }
    } else {
      assert forall k :: 0 <= k <= |ns| ==> TrimAll(ns)[k..] == [] && ns[k..] == [];
    }
  }

  /** Replacing the tail of a child list by its "+n more" node keeps the sum. */
  lemma FoldKeepsTotal(n: Node, k: nat)
    requires k <= |n.children|
    requires var t := TrimAll(n.children);
             && TotalOfAll(t) == TotalOfAll(n.children)
             && TotalOfAll(t[k..]) == TotalOfAll(n.children[k..])
    ensures TotalOfAll(TrimAll(n.children)[..k] + [MoreNode(n, n.children[k..])]) == TotalOfAll(n.children)
  {
    hide TrimAll, MoreNode, TotalOf, SumCounts;
    var t := TrimAll(n.children);
    var more := MoreNode(n, n.children[k..]);
    MoreNodeTotal(n, n.children[k..]);
    TotalOfConcat(t[..k], [more]);
    TotalOfCons(more, []);
    assert [more] + [] == [more];
    SumAssociative(TotalOf(more), ZERO_COUNTS, ZERO_COUNTS);
    TotalOfConcat(t[..k], t[k..]);
    assert t[..k] + t[k..] == t;
  }

  /** The children of a list of siblings as they are drawn one by one. */
  function DrawnAll(ns: seq<Node>): (r: seq<Node>)
    ensures |r| == |ns|
    ensures forall i :: 0 <= i < |ns| ==> r[i] == Drawn(ns[i])
  {
    RollUpAll(TrimAll(ns))
  }

  /** A node folded and then rolled up. */
  function Drawn(n: Node): Node {
    RollUp(Trim(n))
  }

  function DrawnMore(n: Node): Node
    requires |n.children| > Limit(n.children)
  {
    RollUp(MoreNode(n, n.children[Limit(n.children) - 1..]))
  }

  lemma DrawnShape(n: Node)
    ensures Drawn(n) == n.(total := TotalOf(Trim(n)), severity := WorstOf(TotalOf(Trim(n))), children := Drawn(n).children)
    ensures |n.children| <= Limit(n.children) ==> Drawn(n).children == DrawnAll(n.children)
    ensures |n.children| > Limit(n.children) ==>
              Drawn(n).children == DrawnAll(n.children)[..Limit(n.children) - 1] + [DrawnMore(n)]
  {
    hide TotalOf, WorstOf, Limit, MoreNode, RollUpAll, TrimAll;
    var ns := n.children;
    if |ns| > Limit(ns) {
      var k := Limit(ns) - 1;
      RollUpOfFolded(TrimAll(ns), k, MoreNode(n, ns[k..]));
    }
  }

  lemma RollUpOfFolded(ns: seq<Node>, k: nat, more: Node)
    requires k <= |ns|
    ensures RollUpAll(ns[..k] + [more]) == RollUpAll(ns)[..k] + [RollUp(more)]
  {
    hide RollUp;
  }

  lemma DrawnMoreShape(n: Node)
    requires |n.children| > Limit(n.children)
    ensures IsMore(DrawnMore(n), n, Limit(n.children) - 1)
    ensures DrawnMore(n).hidden == HiddenIn(DrawnMore(n))
    ensures IdBag(DrawnMore(n)) == multiset{}
  {
    hide Limit, TotalOf, WorstOf, Itoa;
    var k := Limit(n.children) - 1;
    MoreNodeTotal(n, n.children[k..]);
    var m := DrawnMore(n);
    assert m.children == [];
    assert HiddenInAll([]) == 0 && IdBagAll([]) == multiset{};
  }

  /** `out` draws `t`: same node, rolled up over all of `t`; children drawn one for one, or, past the limit,
      the leading ones followed by one node that states how many siblings it stands for and carries
      their whole tally. */
  ghost predicate Draws(out: Node, t: Node)
    decreases t
  {
    var l := Limit(t.children);
    && out == t.(total := TotalOf(t), severity := WorstOf(TotalOf(t)), children := out.children)
    && if |t.children| <= l then
         |out.children| == |t.children|
         && forall i :: 0 <= i < |t.children| ==> Draws(out.children[i], t.children[i])
       else
         |out.children| == l
         && (forall i :: 0 <= i < l - 1 ==> Draws(out.children[i], t.children[i]))
         && IsMore(out.children[l - 1], t, l - 1)
  }

  ghost predicate IsMore(m: Node, t: Node, k: nat)
    requires k <= |t.children|
  {
    && m.kind == MoreKind && m.parent == t.id && m.children == []
    && m.hidden == |t.children| - k
    && m.total == TotalOfAll(t.children[k..]) && m.severity == WorstOf(m.total)
  }

  /** Folding loses nothing: what is drawn carries the roll-up of the unfolded tree at every kept node. */
  lemma {:induction false} FoldingLosesNothing(t: Node)
    ensures Draws(Drawn(t), t)
    decreases t
  {
    hide TotalOf, WorstOf, Drawn, DrawnAll, DrawnMore, Limit;
    TrimKeepsTotal(t);
    DrawnShape(t);
    forall i | 0 <= i < |t.children| ensures Draws(Drawn(t.children[i]), t.children[i]) {
      FoldingLosesNothing(t.children[i]);
    }
    if |t.children| > Limit(t.children) {
      DrawnMoreShape(t);
      assert Drawn(t).children[Limit(t.children) - 1] == DrawnMore(t);
    }
  }

  /** No child list is longer than the picture allows: never beyond the limit for hosts, and within the limit for
      services where all children are drawn and none is a host. */
  predicate WithinLimits(n: Node) {
    && |n.children| <= MAX_HOSTS_PER_ROOT
    && ((forall c :: c in n.children ==> !c.kind.HostKind? && !c.kind.MoreKind?) ==> |n.children| <= MAX_SERVICES_PER_HOST)
    && forall c :: c in n.children ==> WithinLimits(c)
  }

  lemma {:induction false} DrawnWithinLimits(out: Node, t: Node)
    requires Draws(out, t)
    ensures WithinLimits(out)
    decreases t
  {
    hide TotalOf, WorstOf;
    var l := Limit(t.children);
    var folded := |t.children| > l;
    forall i | 0 <= i < |out.children| ensures WithinLimits(out.children[i]) {
      if folded && i == l - 1 {
        assert out.children[i].children == [];
      } else {
        DrawnWithinLimits(out.children[i], t.children[i]);
      }
    }
    if folded {
      assert out.children[l - 1] in out.children;
    } else if HasHost(t.children) {
      var i :| 0 <= i < |t.children| && t.children[i].kind.HostKind?;
      assert Draws(out.children[i], t.children[i]) && out.children[i] in out.children;
    }
  }

  // ----- the number of folded siblings -----

  /** What trim reports: the siblings folded at this node and at the kept nodes below it. */
  function Folded(n: Node): nat
    decreases n, 1
  {
    var ns := n.children;
    if |ns| > Limit(ns) then
      var k := Limit(ns) - 1;
      |ns| - k + FoldedAll(ns, k)
    else
      FoldedAll(ns, |ns|)
  }

  /** The sum over the first `k` of a list of siblings. */
  function FoldedAll(ns: seq<Node>, k: nat): nat
    requires k <= |ns|
    decreases ns, 0, k
  {
    if k == 0 then 0 else FoldedAll(ns, k - 1) + Folded(ns[k - 1])
  }

  /** No node of the tree is a "+n more" node yet. */
  predicate Plain(n: Node) {
    n.hidden == 0 && n.kind != MoreKind && forall i :: 0 <= i < |n.children| ==> Plain(n.children[i])
  }

  lemma {:induction false} HiddenInConcat(a: seq<Node>, b: seq<Node>)
    ensures HiddenInAll(a + b) == HiddenInAll(a) + HiddenInAll(b)
  {
    hide HiddenIn;
    if a == [] {
      assert a + b == b;
    } else {
      HiddenInConcat(a[1..], b);
      assert (a + b)[1..] == a[1..] + b;
    }
  }

  lemma HiddenInOne(n: Node)
    ensures HiddenInAll([n]) == HiddenIn(n)
  {
    assert [n][1..] == [];
  }

  /** The number trim reports is the number the "+n more" nodes state. */
  lemma {:induction false} FoldedIsHidden(n: Node)
    requires Plain(n)
    ensures HiddenIn(Drawn(n)) == Folded(n)
    decreases n, 1
  {
    hide TotalOf, WorstOf, Drawn, DrawnAll, DrawnMore, Limit;
    var ns := n.children;
    DrawnShape(n);
    if |ns| > Limit(ns) {
      var k := Limit(ns) - 1;
      FoldedAllIsHidden(ns, k);
      HiddenInConcat(DrawnAll(ns)[..k], [DrawnMore(n)]);
      HiddenInOne(DrawnMore(n));
      DrawnMoreShape(n);
    } else {
      FoldedAllIsHidden(ns, |ns|);
      assert DrawnAll(ns)[..|ns|] == DrawnAll(ns);
    }
  }

  lemma {:induction false} FoldedAllIsHidden(ns: seq<Node>, k: nat)
    requires k <= |ns| && forall i :: 0 <= i < |ns| ==> Plain(ns[i])
    ensures HiddenInAll(DrawnAll(ns)[..k]) == FoldedAll(ns, k)
    decreases ns, 0, k
  {
    hide Drawn, DrawnAll, HiddenIn, Folded;
    var out := DrawnAll(ns);
    if k > 0 {
      FoldedAllIsHidden(ns, k - 1);
      FoldedIsHidden(ns[k - 1]);
      TakeNext(out, k - 1);
      HiddenInConcat(out[..k - 1], [out[k - 1]]);
      HiddenInOne(out[k - 1]);
    }
  }

  // ----- links and identifiers -----

  /** Every child names its parent. */
  predicate ParentLinks(n: Node) {
    forall c :: c in n.children ==> c.parent == n.id && ParentLinks(c)
  }

  lemma NormaliseLinked(ns: seq<Node>, id: string)
    requires forall c :: c in ns ==> c.parent == id && ParentLinks(Normalise(c))
    ensures forall c :: c in SortNodes(NormaliseAll(ns)) ==> c.parent == id && ParentLinks(c)
  {
    hide SortStrings, NodeLeq, SortBy, ParentLinks;
    var all := NormaliseAll(ns);
    SameElements(SortNodes(all), all);
    forall c | c in all ensures c.parent == id && ParentLinks(c) {
      var i :| 0 <= i < |all| && all[i] == c;
      assert ns[i] in ns && c == Normalise(ns[i]);
    }
  }

  lemma {:induction false} NormaliseKeepsLinks(n: Node)
    requires ParentLinks(n)
    ensures ParentLinks(Normalise(n))
    decreases n
  {
    forall c | c in n.children ensures ParentLinks(Normalise(c)) {
      NormaliseKeepsLinks(c);
    }
    NormaliseLinked(n.children, n.id);
    hide SortStrings, SortNodes, NormaliseAll;
  }

  lemma ChildrenLinked(n: Node)
    requires ParentLinks(n)
    ensures forall i :: 0 <= i < |n.children| ==> n.children[i].parent == n.id && ParentLinks(n.children[i])
  {
    assert forall i :: 0 <= i < |n.children| ==> n.children[i] in n.children;
  }

  lemma LinkedChildren(n: Node)
    requires forall i :: 0 <= i < |n.children| ==> n.children[i].parent == n.id && ParentLinks(n.children[i])
    ensures ParentLinks(n)
  {
  }

  lemma MoreIsLinked(n: Node)
    requires |n.children| > Limit(n.children)
    ensures DrawnMore(n).parent == n.id && ParentLinks(DrawnMore(n))
  {
    hide DrawnMore, Limit;
    DrawnMoreShape(n);
  }

  lemma DrawnLinked(n: Node)
    requires forall i :: 0 <= i < |n.children| ==> ParentLinks(Drawn(n.children[i])) && Drawn(n.children[i]).parent == n.id
    requires |n.children| > Limit(n.children) ==> DrawnMore(n).parent == n.id && ParentLinks(DrawnMore(n))
    ensures ParentLinks(Drawn(n))
  {
    hide TotalOf, WorstOf, Drawn, DrawnMore, Limit, ParentLinks;
    DrawnShape(n);
    LinkedChildren(Drawn(n));
  }

  lemma {:induction false} DrawingKeepsLinks(n: Node)
    requires ParentLinks(n)
    ensures ParentLinks(Drawn(n))
    decreases n
  {
    ChildrenLinked(n);
    hide TotalOf, WorstOf, Drawn, DrawnAll, DrawnMore, Limit, ParentLinks;
    forall i | 0 <= i < |n.children|
      ensures ParentLinks(Drawn(n.children[i])) && Drawn(n.children[i]).parent == n.id {
      DrawingKeepsLinks(n.children[i]);
      DrawnShape(n.children[i]);
    }
    if |n.children| > Limit(n.children) {
      MoreIsLinked(n);
    }
    DrawnLinked(n);
  }

  /** The identifiers of the host and service nodes of a tree, with multiplicity. */
  function IdBag(n: Node): multiset<string>
    decreases n, 1
  {
    (if n.kind.HostKind? || n.kind.ServiceKind? then multiset{n.id} else multiset{}) + IdBagAll(n.children)
  }

  function IdBagAll(ns: seq<Node>): multiset<string>
    decreases ns, 0
  {
    if ns == [] then multiset{} else IdBag(ns[0]) + IdBagAll(ns[1..])
  }

  lemma {:induction false} IdBagConcat(a: seq<Node>, b: seq<Node>)
    ensures IdBagAll(a + b) == IdBagAll(a) + IdBagAll(b)
  {
    hide IdBag;
    if a == [] {
      assert a + b == b;
    } else {
      IdBagConcat(a[1..], b);
      assert (a + b)[1..] == a[1..] + b;
    }
  }

  lemma {:induction false} IdBagPermutation(a: seq<Node>, b: seq<Node>)
    requires multiset(a) == multiset(b)
    ensures IdBagAll(a) == IdBagAll(b)
    decreases |a|
  {
    hide IdBag;
    SameElements(a, b);
    if a != [] {
      SplitHead(a);
      assert a[0] in b;
      var i :| 0 <= i < |b| && b[i] == a[0];
      SplitAt(b, i);
      RemoveAt(b, i);
      RemoveFirst(a);
      IdBagPermutation(a[1..], b[..i] + b[i + 1..]);
      IdBagConcat(b[..i], b[i + 1..]);
      IdBagConcat(b[..i], [b[i]] + b[i + 1..]);
      assert ([b[i]] + b[i + 1..])[1..] == b[i + 1..];
    }
  }

  lemma {:induction false} NormaliseKeepsIds(n: Node)
    ensures IdBag(Normalise(n)) == IdBag(n)
    decreases n, 1
  {
    NormaliseAllKeepsIds(n.children);
    IdBagPermutation(NormaliseAll(n.children), SortNodes(NormaliseAll(n.children)));
  }

  lemma {:induction false} NormaliseAllKeepsIds(ns: seq<Node>)
    ensures IdBagAll(NormaliseAll(ns)) == IdBagAll(ns)
    decreases ns, 0
  {
    hide Normalise, IdBag;
    if ns != [] {
      NormaliseKeepsIds(ns[0]);
      NormaliseAllKeepsIds(ns[1..]);
      assert NormaliseAll(ns)[1..] == NormaliseAll(ns[1..]);
    }
  }

  lemma IdsOfFolded(ns: seq<Node>, k: nat, more: Node)
    requires k <= |ns| && IdBag(more) == multiset{}
    ensures IdBagAll(ns[..k] + [more]) <= IdBagAll(ns)
  {
    assert IdBagAll([more]) == IdBag(more) + IdBagAll([]) by { assert [more][1..] == []; }
    assert ns == ns[..k] + ns[k..];
    hide IdBag;
    IdBagConcat(ns[..k], [more]);
    IdBagConcat(ns[..k], ns[k..]);
  }

  /** Folding and rolling up introduce no host or service identifier. */
  lemma {:induction false} DrawingKeepsIds(n: Node)
    ensures IdBag(Drawn(n)) <= IdBag(n)
    decreases n, 1
  {
    hide TotalOf, WorstOf, Drawn, DrawnAll, DrawnMore, Limit, IdBagAll;
    var ns := n.children;
    DrawnShape(n);
    DrawingAllKeepsIds(ns);
    if |ns| > Limit(ns) {
      DrawnMoreShape(n);
      IdsOfFolded(DrawnAll(ns), Limit(ns) - 1, DrawnMore(n));
    }
  }

  lemma {:induction false} DrawingAllKeepsIds(ns: seq<Node>)
    ensures IdBagAll(DrawnAll(ns)) <= IdBagAll(ns)
    decreases ns, 0
  {
    hide Drawn, DrawnAll, IdBag;
    if ns != [] {
      DrawingKeepsIds(ns[0]);
      DrawingAllKeepsIds(ns[1..]);
      assert DrawnAll(ns)[1..] == DrawnAll(ns[1..]);
    }
  }
}
