/** internal/surface/surface.go: from a job and an unordered list of findings to the drawn graph. A
    finding is first given a place, the path of nodes it is recorded under; the tree at a path is then
    a function of the places alone. */
module SurfaceBuild {
  import opened Text
  import opened Ordering
  import opened Findings
  import opened Records
  import opened SurfaceTree

  // ----- host keys -----

  /** Reduces what the operator or an adapter wrote to a comparable host key. */
  function HostOf(raw: string): string {
    var s0 := Clean(raw);
    if s0 == "" then "" else
    var i := IndexOfPart(s0, "://");
    var s1 := if i < |s0| then s0[i + 3..] else s0;
    var s2 := s1[..IndexOfAny(s1, "/?#")];
    var j := IndexOfAny(s2, "@");
    PortlessHost(if j < |s2| then s2[j + 1..] else s2)
  }

  /** A host without its port; an address in brackets keeps them. */
  function PortlessHost(s: string): string {
    if HasPrefix(s, "[") then
      var k := IndexOfAny(s, "]");
      if k < |s| then s[..k + 1] else s
    else
      var k := IndexOfAny(s, ":");
      TrimDot(if k < |s| && ':' !in s[k + 1..] then s[..k] else s)
  }

  // ----- roots -----

  datatype RootInfo = RootInfo(key: string, caption: string, skipped: bool, reason: string)

  const UNPLACED := RootInfo("__unplaced", "(outside the declared targets)", false, "")

  predicate OutcomeLeq(a: TargetOutcome, b: TargetOutcome) { StrLeq(a.target, b.target) }

  /** The operator's targets, or the authorised ones when no outcome was recorded. */
  function DeclaredTargets(job: Option<Job>): seq<TargetOutcome> {
    match job
    case None => []
    case Some(j) =>
      if j.targets != [] then SortBy(OutcomeLeq, j.targets)
      else SortBy(OutcomeLeq, MapSeq((t: string) => TargetOutcome(t, false, "", false, false, 0), j.authz.targets))
  }

  function KeyOf(r: RootInfo): string { r.key }

  function Keys(plan: seq<RootInfo>): seq<string> { MapSeq(KeyOf, plan) }

  /** One root for each non-empty key, the first spelling winning. */
  function PlanOf(ds: seq<TargetOutcome>): (plan: seq<RootInfo>)
    ensures NoDuplicates(Keys(plan))
  {
    if ds == [] then [] else
      var plan := PlanOf(ds[..|ds| - 1]);
      var d := ds[|ds| - 1];
      var key := HostOf(d.target);
      if key == "" || key in Keys(plan) then plan
      else
        MapSnoc(KeyOf, plan, RootInfo(key, d.target, !d.processed, d.reason));
        plan + [RootInfo(key, d.target, !d.processed, d.reason)]
  }

  predicate LongerFirst(a: string, b: string) {
    if |a| != |b| then |a| > |b| else StrLeq(a, b)
  }

  /** The position of the first key, longest first, that the host equals or is a sub-domain of;
      `|keys|` when there is none. */
  function FirstMatch(keys: seq<string>, host: string): (i: nat)
    ensures i <= |keys|
    ensures i < |keys| ==> Under(host, keys[i])
    ensures forall k :: 0 <= k < i ==> !Under(host, keys[k])
  {
    if keys == [] || Under(host, keys[0]) then 0 else 1 + FirstMatch(keys[1..], host)
  }

  function IndexOfKey(plan: seq<RootInfo>, key: string): (i: nat)
    ensures i <= |plan|
    ensures i < |plan| ==> plan[i].key == key
    ensures forall k :: 0 <= k < i ==> plan[k].key != key
  {
    if plan == [] || plan[0].key == key then 0 else 1 + IndexOfKey(plan[1..], key)
  }

  /** The root a host belongs to; `|plan|` stands for the root of unplaced findings. */
  function RootIndex(plan: seq<RootInfo>, host: string): (i: nat)
    ensures i <= |plan|
  {
    var keys := SortBy(LongerFirst, Keys(plan));
    var m := FirstMatch(keys, host);
    if m < |keys| then IndexOfKey(plan, keys[m]) else |plan|
  }

  lemma SuffixesOfOneLength(host: string, a: string, b: string)
    requires Under(host, a) && Under(host, b) && |a| == |b|
    ensures a == b
  {
    if host != a {
      assert ("." + a)[1..] == a && ("." + b)[1..] == b;
    }
  }

  /** Any other declared key above the host is shorter than the first match among the sorted keys. */
  lemma OthersAreShorter(plan: seq<RootInfo>, host: string, keys: seq<string>, i: nat, m: nat, j: nat)
    requires NoDuplicates(Keys(plan)) && Sorted(LongerFirst, keys)
    requires m == FirstMatch(keys, host) < |keys| && i < |plan| && plan[i].key == keys[m]
    requires j < |plan| && j != i && Under(host, plan[j].key) && plan[j].key in keys
    ensures |plan[j].key| < |plan[i].key|
  {
    hide StrLeq, Under;
    var l :| 0 <= l < |keys| && keys[l] == plan[j].key;
    assert Keys(plan)[i] != Keys(plan)[j];
    assert l > m;
    assert LongerFirst(keys[m], keys[l]);
    if |plan[j].key| == |plan[i].key| {
      SuffixesOfOneLength(host, plan[j].key, plan[i].key);
    }
  }

  /** A host sits under the longest declared key it equals or is a sub-domain of, and under no declared
      root exactly when there is no such key. */
  lemma RootIsLongestSuffix(plan: seq<RootInfo>, host: string)
    requires NoDuplicates(Keys(plan))
    ensures var i := RootIndex(plan, host);
            && (i < |plan| ==>
                 Under(host, plan[i].key)
                 && forall j :: 0 <= j < |plan| && j != i && Under(host, plan[j].key) ==> |plan[j].key| < |plan[i].key|)
            && (i == |plan| ==> forall j :: 0 <= j < |plan| ==> !Under(host, plan[j].key))
  {
    hide SortBy, LongerFirst, Under, NoDuplicates;
    var keys := SortBy(LongerFirst, Keys(plan));
    var m := FirstMatch(keys, host);
    LongerFirstOrder();
    SortBySorted(LongerFirst, Keys(plan));
    SameElements(keys, Keys(plan));
    forall j | 0 <= j < |plan| ensures plan[j].key in keys {
      assert Keys(plan)[j] in Keys(plan);
    }
    if m < |keys| {
      assert keys[m] in Keys(plan);
      var i := IndexOfKey(plan, keys[m]);
      var k :| 0 <= k < |plan| && Keys(plan)[k] == keys[m];
      forall j | 0 <= j < |plan| && j != i && Under(host, plan[j].key) ensures |plan[j].key| < |plan[i].key| {
        OthersAreShorter(plan, host, keys, i, m, j);
      }
    }
  }

  lemma LongerFirstOrder()
    ensures TotalPreorder(LongerFirst)
  {
    hide StrLeq;
    StrOrder();
  }

  // ----- places -----

  datatype Step = AtRoot(index: nat) | AtHost(key: string) | AtPort(port: int)

  /** Where a finding is recorded, with what the tree keeps of it. */
  datatype Spot = Spot(path: seq<Step>, severity: Severity, id: string)

  function RootAt(plan: seq<RootInfo>, i: nat): RootInfo {
    if i < |plan| then plan[i] else UNPLACED
  }

  /** The node that holds a host: its root itself when the host is that root's key. */
  function Holder(plan: seq<RootInfo>, host: string): (p: seq<Step>)
    ensures 1 <= |p| <= 2 && p[0].AtRoot? && (|p| == 2 ==> p[1].AtHost?)
  {
    var i := RootIndex(plan, host);
    if RootAt(plan, i).key != host then [AtRoot(i), AtHost(host)] else [AtRoot(i)]
  }

  function PathFor(plan: seq<RootInfo>, host: string, port: int): seq<Step> {
    Holder(plan, host) + if port > 0 then [AtPort(port)] else []
  }

  predicate Placeable(f: Option<Finding>) {
    f.Some? && HostOf(f.value.target) != ""
  }

  function Place(plan: seq<RootInfo>): Option<Finding> -> Spot {
    (f: Option<Finding>) =>
      if f.None? then Spot([], NOTHING, "")
      else Spot(PathFor(plan, HostOf(f.value.target), f.value.port), f.value.severity, f.value.id)
  }

  function Spots(plan: seq<RootInfo>, fs: seq<Option<Finding>>): seq<Spot> {
    MapSeq(Place(plan), Filter(Placeable, fs))
  }

  /** The paths findings are placed at. */
  ghost predicate Places(plan: seq<RootInfo>, path: seq<Step>) {
    exists host, port :: path == PathFor(plan, host, port)
  }

  lemma SpotsArePlaced(plan: seq<RootInfo>, fs: seq<Option<Finding>>)
    ensures forall s :: s in Spots(plan, fs) ==> Places(plan, s.path)
  {
    hide PathFor, HostOf;
    var ps := Filter(Placeable, fs);
    forall s | s in Spots(plan, fs) ensures Places(plan, s.path) {
      var i :| 0 <= i < |ps| && Spots(plan, fs)[i] == s;
      assert ps[i] in ps && ps[i].Some?;
    }
  }

  // ----- the tree at a path -----

  function Exactly(path: seq<Step>): Spot -> bool { (s: Spot) => s.path == path }

  function Below(path: seq<Step>): Spot -> bool { (s: Spot) => path < s.path }

  function Within(path: seq<Step>): Spot -> bool { (s: Spot) => path <= s.path }

  function StepAt(k: nat): Spot -> Step { (s: Spot) => if k < |s.path| then s.path[k] else AtRoot(0) }

  function SeverityOf(s: Spot): Severity { s.severity }

  function IdOf(s: Spot): string { s.id }

  function TallyOf(m: multiset<Severity>): Counts {
    Counts(m[Critical], m[High], m[Medium], m[Low], m[Info],
           m[Critical] + m[High] + m[Medium] + m[Low] + m[Info])
  }

  function Tally(ss: seq<Spot>): Counts {
    TallyOf(multiset(MapSeq(SeverityOf, ss)))
  }

  /** The steps that lead from a path to its children, in order of first appearance. */
  function NextSteps(path: seq<Step>, spots: seq<Spot>): seq<Step> {
    Distinct(MapSeq(StepAt(|path|), Filter(Below(path), spots)))
  }

  /** The key of the host a path speaks about. */
  function HostKeyAt(plan: seq<RootInfo>, path: seq<Step>): string {
    if |path| >= 2 && path[1].AtHost? then path[1].key
    else if path != [] && path[0].AtRoot? then RootAt(plan, path[0].index).key
    else ""
  }

  function NodeId(plan: seq<RootInfo>, path: seq<Step>): string {
    if path == [] then ""
    else match path[|path| - 1]
      case AtRoot(i) => "root:" + RootAt(plan, i).key
      case AtHost(key) => "host:" + key
      case AtPort(p) => "svc:" + HostKeyAt(plan, path) + ":" + Itoa(p)
  }

  /** A node as it is created, before anything is recorded at it. */
  function Blank(plan: seq<RootInfo>, path: seq<Step>): Node
    requires path != []
  {
    var parent := NodeId(plan, path[..|path| - 1]);
    match path[|path| - 1]
    case AtRoot(i) =>
      var r := RootAt(plan, i);
      Node(NodeId(plan, path), r.caption, RootKind, parent, 0, NOTHING, ZERO_COUNTS, ZERO_COUNTS, [], r.skipped, r.reason, 0, [])
    case AtHost(key) =>
      Node(NodeId(plan, path), key, HostKind, parent, 0, NOTHING, ZERO_COUNTS, ZERO_COUNTS, [], false, "", 0, [])
    case AtPort(p) =>
      Node(NodeId(plan, path), Itoa(p) + "/tcp", ServiceKind, parent, p, NOTHING, ZERO_COUNTS, ZERO_COUNTS, [], false, "", 0, [])
  }

  const DEPTH := 3

  /** The tree the placing loop grows: children in order of first appearance, identities unsorted. */
  function Grow(plan: seq<RootInfo>, path: seq<Step>, spots: seq<Spot>): Node
    requires path != []
    decreases DEPTH - |path|
  {
    var here := Filter(Exactly(path), spots);
    var steps := if |path| < DEPTH then NextSteps(path, spots) else [];
    Blank(plan, path).(
      own := Tally(here),
      findingIds := MapSeq(IdOf, here),
      children := seq(|steps|, i requires 0 <= i < |steps| => Grow(plan, path + [steps[i]], spots)))
  }

  // ----- the graph -----

  datatype Graph = Graph(
    jobId: string, roots: seq<Node>, hosts: nat, services: nat, truncated: nat,
    skippedTargets: nat, unplaced: nat)

  function IsSkipped(r: RootInfo): bool { r.skipped }

  function AnyUnplaced(plan: seq<RootInfo>, spots: seq<Spot>): seq<Spot> {
    Filter(Within([AtRoot(|plan|)]), spots)
  }

  function RootCount(plan: seq<RootInfo>, spots: seq<Spot>): nat {
    |plan| + if AnyUnplaced(plan, spots) == [] then 0 else 1
  }

  function GrownRoots(plan: seq<RootInfo>, spots: seq<Spot>): seq<Node> {
    seq(RootCount(plan, spots), i requires 0 <= i < RootCount(plan, spots) => Grow(plan, [AtRoot(i)], spots))
  }

  function HostPaths(spots: seq<Spot>): set<seq<Step>> {
    set s | s in spots && |s.path| >= 2 && s.path[1].AtHost? :: s.path[..2]
  }

  function ServicePaths(spots: seq<Spot>): set<seq<Step>> {
    set s | s in spots && s.path != [] && s.path[|s.path| - 1].AtPort? :: s.path
  }

  function SortedRoots(plan: seq<RootInfo>, spots: seq<Spot>): seq<Node> {
    SortNodes(NormaliseAll(GrownRoots(plan, spots)))
  }

  function GraphOf(jobId: string, plan: seq<RootInfo>, spots: seq<Spot>): Graph {
    var roots := SortedRoots(plan, spots);
    Graph(jobId, DrawnAll(roots), |HostPaths(spots)|, |ServicePaths(spots)|, FoldedAll(roots, |roots|),
          |Filter(IsSkipped, plan)|, |AnyUnplaced(plan, spots)|)
  }

  function JobId(job: Option<Job>): string { if job.None? then "" else job.value.id }

  function Build(job: Option<Job>, fs: seq<Option<Finding>>): Graph {
    var plan := PlanOf(DeclaredTargets(job));
    GraphOf(JobId(job), plan, Spots(plan, fs))
  }
}
