/** internal/surface/surface.go: the picture told from the places of the findings alone, without the sorting and
    folding that draw it. Worse siblings stand first at every level, and folding hides the last. */
module SurfaceOrder {
  import opened Text
  import opened Ordering
  import opened Findings
  import opened Records
  import opened SurfaceTree
  import opened SurfaceBuild
  import opened SurfaceProofs
  import opened SurfaceCounts

  // ----- what the places say -----

  /** A finding of this class is recorded at the path itself. */
  ghost predicate Holds(spots: seq<Spot>, path: seq<Step>, s: Severity) {
    exists sp :: sp in spots && sp.path == path && sp.severity == s
  }

  /** Nothing of a known class is recorded at the path itself. */
  ghost predicate Silent(spots: seq<Spot>, path: seq<Step>) {
    forall sp :: sp in spots && sp.path == path ==> sp.severity.OtherSeverity?
  }

  ghost predicate LeadsOn(spots: seq<Spot>, path: seq<Step>, st: Step) {
    exists sp :: sp in spots && path + [st] <= sp.path
  }

  /** The classes a place is judged by: its own, or those of the places below when it has none. */
  ghost predicate Speaks(spots: seq<Spot>, path: seq<Step>, s: Severity)
    decreases DEPTH - |path|
  {
    || Holds(spots, path, s)
    || (Silent(spots, path) && |path| < DEPTH && exists st :: LeadsOn(spots, path, st) && Speaks(spots, path + [st], s))
  }

  /** `r` is the rank of the worst known class a place is judged by, or 0 when there is none. */
  ghost predicate Peak(spots: seq<Spot>, path: seq<Step>, r: nat) {
    && (forall s :: Speaks(spots, path, s) ==> s.Rank() <= r)
    && (r == 0 || exists s :: Speaks(spots, path, s) && s.Rank() == r)
  }

  /** The place `p` is drawn before its sibling `q`: it is worse, or as bad and first by port, caption and id. */
  ghost predicate DrawnBefore(plan: seq<RootInfo>, spots: seq<Spot>, p: seq<Step>, q: seq<Step>)
    requires p != [] && q != []
  {
    var a, b := Blank(plan, p), Blank(plan, q);
    exists x: nat, y: nat :: Peak(spots, p, x) && Peak(spots, q, y) && x >= y
      && (x == y ==> a.port <= b.port)
      && (x == y && a.port == b.port ==> StrLeq(a.caption, b.caption))
      && (x == y && a.port == b.port && a.caption == b.caption ==> StrLeq(a.id, b.id))
  }

  /** The steps lead to the siblings below a path, each once, in the order they are drawn in. */
  ghost predicate InDrawingOrder(plan: seq<RootInfo>, spots: seq<Spot>, path: seq<Step>, order: seq<Step>) {
    && NoDuplicates(order)
    && forall i, j :: 0 <= i < j < |order| ==> DrawnBefore(plan, spots, path + [order[i]], path + [order[j]])
  }

  /** Class by class the number of findings recorded at the places `p` holds of. */
  predicate Counted(c: Counts, p: Spot -> bool, spots: seq<Spot>) {
    && c.critical == |Filter(OfClass(p, Critical), spots)|
    && c.high == |Filter(OfClass(p, High), spots)|
    && c.medium == |Filter(OfClass(p, Medium), spots)|
    && c.low == |Filter(OfClass(p, Low), spots)|
    && c.info == |Filter(OfClass(p, Info), spots)|
    && c.total == c.critical + c.high + c.medium + c.low + c.info
  }

  function OfClass(p: Spot -> bool, s: Severity): Spot -> bool { (sp: Spot) => p(sp) && sp.severity == s }

  /** The worst known class among the findings at or below a path. */
  ghost predicate Worst(s: Severity, path: seq<Step>, spots: seq<Spot>) {
    && (forall sp :: sp in spots && path <= sp.path ==> sp.severity.Rank() <= s.Rank())
    && (s == NOTHING || (s.Rank() > 0 && exists sp :: sp in spots && path <= sp.path && sp.severity == s))
  }

  /** How the last step of a path is written. */
  predicate Labelled(n: Node, plan: seq<RootInfo>, path: seq<Step>)
    requires path != []
  {
    match path[|path| - 1]
    case AtRoot(i) =>
      var r := if i < |plan| then plan[i] else RootInfo("__unplaced", "(outside the declared targets)", false, "");
      n.kind == RootKind && n.id == "root:" + r.key && n.caption == r.caption && n.port == 0
      && n.skipped == r.skipped && n.reason == r.reason
    case AtHost(key) =>
      n.kind == HostKind && n.id == "host:" + key && n.caption == key && n.port == 0 && !n.skipped && n.reason == ""
    case AtPort(p) =>
      n.kind == ServiceKind && n.caption == Itoa(p) + "/tcp" && n.port == p && !n.skipped && n.reason == ""
  }

  /** The node says what is recorded at its path and below it. */
  ghost predicate Tells(n: Node, plan: seq<RootInfo>, spots: seq<Spot>, path: seq<Step>)
    requires path != []
  {
    && Labelled(n, plan, path) && n.hidden == 0
    && Counted(n.own, Exactly(path), spots)
    && Counted(n.total, Within(path), spots)
    && Worst(n.severity, path, spots)
    && Sorted(StrLeq, n.findingIds)
    && multiset(n.findingIds) == multiset(MapSeq(IdOf, Filter(Exactly(path), spots)))
  }

  /** The last child of a node too long to draw: it states how many siblings it stands for. */
  predicate StandsFor(m: Node, n: Node, count: nat) {
    m.kind == MoreKind && m.id == n.id + "/more" && m.caption == "+" + Itoa(count) + " more"
    && m.hidden == count && m.children == [] && m.findingIds == []
  }

  /** The picture of a place: the node, and below it the places findings lead on to. */
  ghost predicate Pictured(n: Node, plan: seq<RootInfo>, spots: seq<Spot>, path: seq<Step>)
    requires path != []
    decreases DEPTH - |path|, 1
  {
    && Tells(n, plan, spots, path)
    && if |path| >= DEPTH then n.children == [] else exists order :: PicturedBelow(n, plan, spots, path, order)
  }

  /** The children of a place in drawing order. Past 24 hosts, or 14 services, the last ones share a node. */
  ghost predicate PicturedBelow(n: Node, plan: seq<RootInfo>, spots: seq<Spot>, path: seq<Step>, order: seq<Step>)
    requires 0 < |path| < DEPTH
    decreases DEPTH - |path|, 0
  {
    var limit := if AnyHost(order) then 24 else 14;
    var kept := if |order| <= limit then |order| else limit - 1;
    && InDrawingOrder(plan, spots, path, order)
    && (forall st :: st in order <==> LeadsOn(spots, path, st))
    && |n.children| == (if |order| <= limit then |order| else limit)
    && (forall i :: 0 <= i < kept ==> Pictured(n.children[i], plan, spots, path + [order[i]]))
    && (kept < |order| ==> StandsFor(n.children[kept], n, |order| - kept))
  }

  predicate AnyHost(order: seq<Step>) { exists st :: st in order && st.AtHost? }

  /** The roots: one for each declared target, and one more exactly when a finding belongs to none of them. */
  ghost predicate RootsPictured(roots: seq<Node>, plan: seq<RootInfo>, spots: seq<Spot>, order: seq<Step>) {
    && InDrawingOrder(plan, spots, [], order)
    && (forall st: Step :: st in order <==> IsRootStep(plan, spots, st))
    && |roots| == |order|
    && forall i :: 0 <= i < |order| ==> Pictured(roots[i], plan, spots, [order[i]])
  }

  ghost predicate IsPicture(roots: seq<Node>, plan: seq<RootInfo>, spots: seq<Spot>) {
    exists order :: RootsPictured(roots, plan, spots, order)
  }

  ghost predicate IsRootStep(plan: seq<RootInfo>, spots: seq<Spot>, st: Step) {
    st.AtRoot? && (st.index < |plan| || (st.index == |plan| && LeadsOn(spots, [], st)))
  }

  // ----- the rank siblings are ordered by -----

  lemma {:induction false} CountOfClass(p: Spot -> bool, s: Severity, ss: seq<Spot>)
    ensures multiset(MapSeq(SeverityOf, Filter(p, ss)))[s] == |Filter(OfClass(p, s), ss)|
  {
    if ss != [] {
      var n := |ss| - 1;
      SplitLast(ss);
      var a, x := ss[..n], ss[n];
      CountOfClass(p, s, a);
      FilterStep(p, a, x);
      FilterStep(OfClass(p, s), a, x);
      MapSnoc(SeverityOf, Filter(p, a), x);
    }
  }

  lemma TallyCounts(p: Spot -> bool, ss: seq<Spot>)
    ensures Counted(Tally(Filter(p, ss)), p, ss)
  {
    hide Filter, MapSeq;
    CountOfClass(p, Critical, ss);
    CountOfClass(p, High, ss);
    CountOfClass(p, Medium, ss);
    CountOfClass(p, Low, ss);
    CountOfClass(p, Info, ss);
  }

  /** A class is counted exactly when some finding has it. */
  lemma CountedWhenHeld(p: Spot -> bool, s: Severity, ss: seq<Spot>)
    ensures |Filter(OfClass(p, s), ss)| > 0 <==> exists sp :: sp in ss && p(sp) && sp.severity == s
  {
    var f := Filter(OfClass(p, s), ss);
    if f != [] {
      assert f[0] in f;
    }
    if sp :| sp in ss && p(sp) && sp.severity == s {
      assert sp in f;
    }
  }

  /** The worst class of a list of counts is the worst one that was counted. */
  lemma WorstOfCounted(c: Counts, path: seq<Step>, ss: seq<Spot>)
    requires Counted(c, Within(path), ss)
    ensures Worst(WorstOf(c), path, ss)
  {
    hide Filter;
    var p := Within(path);
    CountedWhenHeld(p, Critical, ss);
    CountedWhenHeld(p, High, ss);
    CountedWhenHeld(p, Medium, ss);
    CountedWhenHeld(p, Low, ss);
    CountedWhenHeld(p, Info, ss);
    hide OfClass;
    forall sp | sp in ss && path <= sp.path ensures sp.severity.Rank() <= WorstOf(c).Rank() {
      assert p(sp);
    }
  }

  lemma {:induction false} WorstOwnAllIsMax(ns: seq<Node>)
    ensures WorstOwnAll(ns) >= 0
    ensures forall n :: n in ns ==> WorstOwn(n) <= WorstOwnAll(ns)
    ensures WorstOwnAll(ns) == 0 || exists n :: n in ns && WorstOwn(n) == WorstOwnAll(ns)
    decreases |ns|
  {
    hide WorstOwn;
    if ns != [] {
      SplitHead(ns);
      WorstOwnAllIsMax(ns[1..]);
      if WorstOwnAll(ns) != 0 {
        if WorstOwnAll(ns) == WorstOwn(ns[0]) {
          assert ns[0] in ns;
        } else {
          var n :| n in ns[1..] && WorstOwn(n) == WorstOwnAll(ns[1..]);
          assert n in ns;
        }
      }
    }
  }

  lemma WorstOwnAllIgnoresOrder(a: seq<Node>, b: seq<Node>)
    requires multiset(a) == multiset(b)
    ensures WorstOwnAll(a) == WorstOwnAll(b)
  {
    hide WorstOwn, WorstOwnAll;
    SameElements(a, b);
    WorstOwnAllIsMax(a);
    WorstOwnAllIsMax(b);
  }

  /** The steps below a path are exactly those a finding leads on by. */
  lemma NextStepsAre(path: seq<Step>, spots: seq<Spot>, st: Step)
    ensures st in NextSteps(path, spots) <==> LeadsOn(spots, path, st)
  {
    if st in NextSteps(path, spots) {
      NextStepOfSpot(path, spots, st);
    }
    if LeadsOn(spots, path, st) {
      NextStepsLead(path, spots);
      var sp :| sp in spots && path + [st] <= sp.path;
      StepOfSpot(path, spots, st, sp);
    }
  }

  lemma StepOfSpot(path: seq<Step>, spots: seq<Spot>, st: Step, sp: Spot)
    requires sp in spots && path + [st] <= sp.path
    ensures st in NextSteps(path, spots)
  {
    hide Filter, Distinct;
    var below := Filter(Below(path), spots);
    assert path == sp.path[..|path|] by { assert path == (path + [st])[..|path|] == sp.path[..|path| + 1][..|path|]; }
    assert sp.path[|path|] == st;
    assert sp in below;
    var i :| 0 <= i < |below| && below[i] == sp;
    assert MapSeq(StepAt(|path|), below)[i] == st;
  }

  lemma OwnRank(spots: seq<Spot>, path: seq<Step>, n: Node)
    requires Counted(n.own, Exactly(path), spots) && !Silent(spots, path)
    ensures WorstOwn(n) > 0 && Peak(spots, path, WorstOwn(n))
  {
    hide Filter, WorstOwnAll;
    var p := Exactly(path);
    CountedWhenHeld(p, Critical, spots);
    CountedWhenHeld(p, High, spots);
    CountedWhenHeld(p, Medium, spots);
    CountedWhenHeld(p, Low, spots);
    CountedWhenHeld(p, Info, spots);
    hide OfClass;
    forall s | Speaks(spots, path, s) ensures s.Rank() <= WorstOwn(n) {
      assert Holds(spots, path, s);
    }
    var s := match WorstOwn(n) case 5 => Critical case 4 => High case 3 => Medium case 2 => Low case _ => Info;
    assert Holds(spots, path, s);
    assert Speaks(spots, path, s);
  }

  lemma SilentRank(spots: seq<Spot>, path: seq<Step>, n: Node)
    requires Counted(n.own, Exactly(path), spots) && Silent(spots, path)
    ensures WorstOwn(n) == WorstOwnAll(n.children)
  {
    hide Filter, WorstOwnAll;
    var p := Exactly(path);
    CountedWhenHeld(p, Critical, spots);
    CountedWhenHeld(p, High, spots);
    CountedWhenHeld(p, Medium, spots);
    CountedWhenHeld(p, Low, spots);
    CountedWhenHeld(p, Info, spots);
  }

  lemma NormalisedShape(plan: seq<RootInfo>, path: seq<Step>, spots: seq<Spot>)
    requires path != []
    ensures var n := Normalise(Grow(plan, path, spots));
            && n == Blank(plan, path).(own := n.own, findingIds := n.findingIds, children := n.children)
            && n.own == Tally(Filter(Exactly(path), spots))
            && n.findingIds == SortStrings(MapSeq(IdOf, Filter(Exactly(path), spots)))
            && (|path| >= DEPTH ==> n.children == [])
            && (|path| < DEPTH ==> n.children == SortNodes(MapSeq(ChildAt(plan, path, spots), NextSteps(path, spots))))
  {
    GrowShape(plan, path, spots);
    if |path| < DEPTH {
      GrowNormalised(plan, path, spots);
    }
    hide Grow, Blank, NextSteps, Tally, SortStrings, SortBy, NodeLeq;
  }

  /** The number siblings are ordered by is the rank of the worst class they are judged by. */
  lemma {:induction false} RankIsPeak(plan: seq<RootInfo>, path: seq<Step>, spots: seq<Spot>)
    requires path != [] && |path| <= DEPTH
    ensures WorstOwn(Normalise(Grow(plan, path, spots))) >= 0
    ensures Peak(spots, path, WorstOwn(Normalise(Grow(plan, path, spots))))
    decreases DEPTH - |path|
  {
    hide Blank, NextSteps, Tally, Normalise, Grow, WorstOwn, SortNodes, Counted;
    var n := Normalise(Grow(plan, path, spots));
    NormalisedShape(plan, path, spots);
    TallyCounts(Exactly(path), spots);
    if !Silent(spots, path) {
      OwnRank(spots, path, n);
    } else {
      SilentRank(spots, path, n);
      WorstOwnAllIsMax(n.children);
      if |path| < DEPTH {
        forall st ensures Peak(spots, path + [st], PeakAt(plan, path, spots, st)) {
          RankIsPeak(plan, path + [st], spots);
        }
        PeakOfChildren(plan, path, spots, n);
      } else {
        NothingSpoken(spots, path);
      }
    }
  }

  function PeakAt(plan: seq<RootInfo>, path: seq<Step>, spots: seq<Spot>, st: Step): nat {
    var r := WorstOwn(ChildAt(plan, path, spots)(st));
    if r < 0 then 0 else r
  }

  lemma NothingSpoken(spots: seq<Spot>, path: seq<Step>)
    requires Silent(spots, path) && |path| >= DEPTH
    ensures Peak(spots, path, 0)
  {
  }

  lemma PeakOfChildren(plan: seq<RootInfo>, path: seq<Step>, spots: seq<Spot>, n: Node)
    requires Silent(spots, path) && |path| < DEPTH
    requires n.children == SortNodes(MapSeq(ChildAt(plan, path, spots), NextSteps(path, spots)))
    requires WorstOwnAll(n.children) >= 0
    requires forall st :: Peak(spots, path + [st], PeakAt(plan, path, spots, st))
    ensures Peak(spots, path, WorstOwnAll(n.children))
  {
    hide NextSteps, SortBy, WorstOwnAll, NodeLeq, ChildAt, WorstOwn;
    var f, steps := ChildAt(plan, path, spots), NextSteps(path, spots);
    var cs := MapSeq(f, steps);
    WorstOwnAllIgnoresOrder(cs, n.children);
    WorstOwnAllIsMax(cs);
    var r := WorstOwnAll(cs);
    forall s | Speaks(spots, path, s) ensures s.Rank() <= r {
      SpokenBelow(plan, path, spots, s, r);
    }
    if r != 0 {
      var c :| c in cs && WorstOwn(c) == r;
      var i :| 0 <= i < |cs| && cs[i] == c;
      NextStepsAre(path, spots, steps[i]);
      var s :| Speaks(spots, path + [steps[i]], s) && s.Rank() == r;
      assert Speaks(spots, path, s);
    }
  }

  lemma SpokenBelow(plan: seq<RootInfo>, path: seq<Step>, spots: seq<Spot>, s: Severity, r: nat)
    requires Silent(spots, path) && |path| < DEPTH && Speaks(spots, path, s)
    requires forall c :: c in MapSeq(ChildAt(plan, path, spots), NextSteps(path, spots)) ==> WorstOwn(c) <= r
    requires forall st :: Peak(spots, path + [st], PeakAt(plan, path, spots, st))
    ensures s.Rank() <= r
  {
    hide NextSteps, ChildAt, WorstOwn;
    if !Holds(spots, path, s) {
      var st :| LeadsOn(spots, path, st) && Speaks(spots, path + [st], s);
      NextStepsAre(path, spots, st);
      var steps := NextSteps(path, spots);
      var i :| 0 <= i < |steps| && steps[i] == st;
      assert MapSeq(ChildAt(plan, path, spots), steps)[i] in MapSeq(ChildAt(plan, path, spots), steps);
      assert s.Rank() <= PeakAt(plan, path, spots, st);
    }
  }

  // ----- the order of the siblings -----

  lemma SortedIsDrawnBefore(plan: seq<RootInfo>, spots: seq<Spot>, p: seq<Step>, q: seq<Step>)
    requires p != [] && q != [] && |p| <= DEPTH && |q| <= DEPTH
    requires NodeLeq(Normalise(Grow(plan, p, spots)), Normalise(Grow(plan, q, spots)))
    ensures DrawnBefore(plan, spots, p, q)
  {
    hide Blank, Normalise, Grow, WorstOwn, Peak, StrLeq, Tally;
    var a, b := Normalise(Grow(plan, p, spots)), Normalise(Grow(plan, q, spots));
    RankIsPeak(plan, p, spots);
    RankIsPeak(plan, q, spots);
    NormalisedShape(plan, p, spots);
    NormalisedShape(plan, q, spots);
    BlankIsNoFold(plan, p);
    BlankIsNoFold(plan, q);
    assert a.caption == Blank(plan, p).caption && b.caption == Blank(plan, q).caption;
    StrOrder();
    var x: nat, y: nat := WorstOwn(a), WorstOwn(b);
    assert Peak(spots, p, x) && Peak(spots, q, y);
  }

  lemma BlankIsNoFold(plan: seq<RootInfo>, path: seq<Step>)
    requires path != []
    ensures !Blank(plan, path).kind.MoreKind?
    ensures Blank(plan, path).kind.HostKind? <==> path[|path| - 1].AtHost?
  {
    hide NodeId, RootAt, Itoa;
  }

  /** The steps of the siblings in the order the sorted siblings stand in. */
  lemma OrderOfSorted(plan: seq<RootInfo>, spots: seq<Spot>, path: seq<Step>, steps: seq<Step>) returns (order: seq<Step>)
    requires |path| < DEPTH && NoDuplicates(steps)
    ensures InDrawingOrder(plan, spots, path, order)
    ensures multiset(order) == multiset(steps) && |order| == |steps|
    ensures SortNodes(MapSeq(ChildAt(plan, path, spots), steps)) == MapSeq(ChildAt(plan, path, spots), order)
  {
    hide NodeLeq, SortBy, NoDuplicates, DrawnBefore;
    var f := ChildAt(plan, path, spots);
    var cs := SortNodes(MapSeq(f, steps));
    order := PermutationLifts(f, steps, cs);
    SameElements(order, steps);
    NoDuplicatesPermutes(steps, order);
    NodeOrder();
    SortBySorted(NodeLeq, MapSeq(f, steps));
    forall i, j | 0 <= i < j < |order| ensures DrawnBefore(plan, spots, path + [order[i]], path + [order[j]]) {
      assert NodeLeq(cs[i], cs[j]);
      SortedIsDrawnBefore(plan, spots, path + [order[i]], path + [order[j]]);
    }
  }

  // ----- the picture -----

  lemma DrawnTells(plan: seq<RootInfo>, spots: seq<Spot>, path: seq<Step>)
    requires path != [] && |path| <= DEPTH && AllShaped(spots)
    ensures Tells(Drawn(Normalise(Grow(plan, path, spots))), plan, spots, path)
  {
    hide Blank, Normalise, Grow, Tally, TotalOf, WorstOf, Drawn, Counted, Worst, StrLeq, Draws, Labelled, AllShaped, SortNodes;
    var n := Normalise(Grow(plan, path, spots));
    NormalisedShape(plan, path, spots);
    DrawnShape(n);
    TrimKeepsTotal(n);
    NormaliseKeepsTotal(Grow(plan, path, spots));
    GrowTotal(plan, path, spots);
    TallyCounts(Exactly(path), spots);
    TallyCounts(Within(path), spots);
    WorstOfCounted(TotalOf(n), path, spots);
    StrOrder();
    SortBySorted(StrLeq, MapSeq(IdOf, Filter(Exactly(path), spots)));
    BlankLabelled(plan, path);
    LabelledAlike(Blank(plan, path), Drawn(n), plan, path);
  }

  lemma BlankLabelled(plan: seq<RootInfo>, path: seq<Step>)
    requires path != []
    ensures Labelled(Blank(plan, path), plan, path) && Blank(plan, path).hidden == 0
  {
    hide Itoa;
  }

  lemma LabelledAlike(a: Node, b: Node, plan: seq<RootInfo>, path: seq<Step>)
    requires path != [] && Labelled(a, plan, path)
    requires b == a.(own := b.own, findingIds := b.findingIds, children := b.children, total := b.total, severity := b.severity)
    ensures Labelled(b, plan, path)
  {
    hide Itoa;
  }

  lemma LimitOf(plan: seq<RootInfo>, spots: seq<Spot>, path: seq<Step>, order: seq<Step>)
    ensures Limit(MapSeq(ChildAt(plan, path, spots), order)) == if AnyHost(order) then 24 else 14
  {
    hide Normalise, Grow, Blank;
    var cs := MapSeq(ChildAt(plan, path, spots), order);
    forall i | 0 <= i < |order| ensures cs[i].kind.HostKind? <==> order[i].AtHost? {
      NormalisedShape(plan, path + [order[i]], spots);
      BlankIsNoFold(plan, path + [order[i]]);
    }
  }

  /** What is drawn at a path is the picture of that place. */
  lemma {:induction false} DrawnIsPictured(plan: seq<RootInfo>, spots: seq<Spot>, path: seq<Step>)
    requires path != [] && |path| <= DEPTH && AllShaped(spots)
    ensures Pictured(Drawn(Normalise(Grow(plan, path, spots))), plan, spots, path)
    decreases DEPTH - |path|
  {
    hide Blank, Normalise, Grow, Tally, TotalOf, WorstOf, Drawn, NextSteps, Tells, InDrawingOrder, AllShaped, SortNodes, Limit, MapSeq;
    var n := Normalise(Grow(plan, path, spots));
    NormalisedShape(plan, path, spots);
    DrawnTells(plan, spots, path);
    DrawnShape(n);
    if |path| < DEPTH {
      var steps := NextSteps(path, spots);
      StepsWithoutRepeats(path, spots);
      var order := OrderOfSorted(plan, spots, path, steps);
      assert n.children == MapSeq(ChildAt(plan, path, spots), order);
      LimitOf(plan, spots, path, order);
      SameElements(order, steps);
      forall st ensures st in order <==> LeadsOn(spots, path, st) {
        NextStepsAre(path, spots, st);
      }
      forall st ensures Pictured(Drawn(ChildAt(plan, path, spots)(st)), plan, spots, path + [st]) {
        DrawnIsPictured(plan, spots, path + [st]);
      }
      ChildrenPictured(plan, spots, path, n, order);
    }
  }

  lemma StepsWithoutRepeats(path: seq<Step>, spots: seq<Spot>)
    ensures NoDuplicates(NextSteps(path, spots))
  {
    hide Distinct, Filter, MapSeq;
  }

  lemma ChildrenPictured(plan: seq<RootInfo>, spots: seq<Spot>, path: seq<Step>, n: Node, order: seq<Step>)
    requires path != [] && |path| < DEPTH
    requires Tells(Drawn(n), plan, spots, path) && InDrawingOrder(plan, spots, path, order)
    requires forall st :: st in order <==> LeadsOn(spots, path, st)
    requires n.children == MapSeq(ChildAt(plan, path, spots), order)
    requires Limit(n.children) == if AnyHost(order) then 24 else 14
    requires forall st :: Pictured(Drawn(ChildAt(plan, path, spots)(st)), plan, spots, path + [st])
    ensures Pictured(Drawn(n), plan, spots, path)
  {
    hide Tells, InDrawingOrder, Drawn, Limit, TotalOf, WorstOf, ChildAt, LeadsOn, DrawnAll, DrawnMore, StandsFor, MapSeq;
    KeptChildren(plan, spots, path, n, order);
    hide Pictured;
    assert PicturedBelow(Drawn(n), plan, spots, path, order);
    PicturedByOrder(Drawn(n), plan, spots, path, order);
  }

  lemma PicturedByOrder(n: Node, plan: seq<RootInfo>, spots: seq<Spot>, path: seq<Step>, order: seq<Step>)
    requires 0 < |path| < DEPTH && Tells(n, plan, spots, path) && PicturedBelow(n, plan, spots, path, order)
    ensures Pictured(n, plan, spots, path)
  {
    hide Tells, PicturedBelow;
  }

  lemma KeptChildren(plan: seq<RootInfo>, spots: seq<Spot>, path: seq<Step>, n: Node, order: seq<Step>)
    requires path != [] && n.children == MapSeq(ChildAt(plan, path, spots), order)
    requires forall st :: Pictured(Drawn(ChildAt(plan, path, spots)(st)), plan, spots, path + [st])
    ensures var limit := Limit(n.children);
            var kept := if |order| <= limit then |order| else limit - 1;
            var out := Drawn(n).children;
            && |out| == (if |order| <= limit then |order| else limit)
            && (forall i :: 0 <= i < kept ==> Pictured(out[i], plan, spots, path + [order[i]]))
            && (kept < |order| ==> StandsFor(out[kept], Drawn(n), |order| - kept))
  {
    hide Tells, InDrawingOrder, Drawn, Limit, TotalOf, WorstOf, ChildAt, LeadsOn, DrawnMore, StandsFor, Pictured;
    DrawnShape(n);
    var limit := Limit(n.children);
    var out := Drawn(n).children;
    forall i | 0 <= i < |order| && (|order| <= limit || i < limit - 1)
      ensures Pictured(out[i], plan, spots, path + [order[i]]) {
      assert out[i] == Drawn(n.children[i]) == Drawn(ChildAt(plan, path, spots)(order[i]));
    }
    if |order| > limit {
      MoreStandsFor(n, Drawn(n));
    }
  }

  lemma MoreStandsFor(n: Node, out: Node)
    requires |n.children| > Limit(n.children) && out.id == n.id
    ensures StandsFor(DrawnMore(n), out, |n.children| - (Limit(n.children) - 1))
  {
    hide TotalOf, WorstOf, Itoa, Limit;
  }

  /** The whole picture: worse roots first, and below each of them the places its findings lead on to, worse siblings
      first, so that no sibling folded away is worse than one that is drawn. */
  lemma WorstIsDrawnFirst(job: Option<Job>, fs: seq<Option<Finding>>)
    ensures var plan := PlanOf(DeclaredTargets(job));
            IsPicture(Build(job, fs).roots, plan, Spots(plan, fs))
  {
    hide DeclaredTargets, PlanOf, Spots, SortedRoots, HostPaths, ServicePaths, AnyUnplaced, DrawnAll, RootsPictured;
    var plan := PlanOf(DeclaredTargets(job));
    var spots := Spots(plan, fs);
    SpotsShaped(plan, fs);
    var order := RootsInOrder(plan, spots);
    assert Build(job, fs).roots == DrawnAll(SortedRoots(plan, spots));
    assert RootsPictured(Build(job, fs).roots, plan, spots, order);
  }

  lemma RootsInOrder(plan: seq<RootInfo>, spots: seq<Spot>) returns (order: seq<Step>)
    requires AllShaped(spots)
    ensures RootsPictured(DrawnAll(SortedRoots(plan, spots)), plan, spots, order)
  {
    hide SortNodes, RootCount, Drawn, Normalise, Grow, Pictured, InDrawingOrder, AllShaped, IsRootStep, MapSeq;
    var steps := seq(RootCount(plan, spots), i requires 0 <= i < RootCount(plan, spots) => AtRoot(i));
    order := OrderOfSorted(plan, spots, [], steps);
    RootSteps(plan, spots, steps);
    var roots := SortedRoots(plan, spots);
    assert roots == MapSeq(ChildAt(plan, [], spots), order);
    SameElements(order, steps);
    forall st: Step ensures st in order <==> IsRootStep(plan, spots, st) {
      RootStepsAre(plan, spots, steps, st);
    }
    forall i | 0 <= i < |order| ensures Pictured(DrawnAll(roots)[i], plan, spots, [order[i]]) {
      DrawnIsPictured(plan, spots, [order[i]]);
      assert [] + [order[i]] == [order[i]];
    }
  }

  lemma RootSteps(plan: seq<RootInfo>, spots: seq<Spot>, steps: seq<Step>)
    requires |steps| == RootCount(plan, spots) && forall i :: 0 <= i < |steps| ==> steps[i] == AtRoot(i)
    ensures NormaliseAll(GrownRoots(plan, spots)) == MapSeq(ChildAt(plan, [], spots), steps)
  {
    hide Normalise, Grow, RootCount;
    forall i | 0 <= i < |steps| ensures ChildAt(plan, [], spots)(steps[i]) == Normalise(GrownRoots(plan, spots)[i]) {
      assert [] + [steps[i]] == [AtRoot(i)];
    }
  }

  lemma RootStepsAre(plan: seq<RootInfo>, spots: seq<Spot>, steps: seq<Step>, st: Step)
    requires |steps| == RootCount(plan, spots) && forall i :: 0 <= i < |steps| ==> steps[i] == AtRoot(i)
    ensures st in steps <==> IsRootStep(plan, spots, st)
  {
    var u := AnyUnplaced(plan, spots);
    var last := AtRoot(|plan|);
    assert [] + [last] == [last];
    if u != [] {
      assert u[0] in u;
    }
    if sp :| sp in spots && [last] <= sp.path {
      assert sp in u;
    }
    if st.AtRoot? && st.index < |steps| {
      assert steps[st.index] == st;
    }
  }
}
