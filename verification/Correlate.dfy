/** internal/correlate/correlate.go and internal/score/score.go: folding findings that share an identity,
    ranking the result and capping what is shown. */
module Correlate {
  import opened Text
  import opened Ordering
  import opened Findings

  // ----- folding a list of findings into an accumulator -----

  /** The last place of an identity, or the length. */
  function IndexOf(fs: seq<Finding>, id: string): (i: nat)
    ensures i <= |fs|
    ensures i < |fs| ==> fs[i].id == id
    ensures forall k :: 0 <= k < |fs| && (k > i || i == |fs|) ==> fs[k].id != id
  {
    if fs == [] then 0
    else
      var n := |fs| - 1;
      if fs[n].id == id then n
      else
        var i := IndexOf(fs[..n], id);
        if i == n then |fs| else i
  }

  function FoldOne(acc: seq<Finding>, f: Finding): seq<Finding> {
    var i := IndexOf(acc, f.id);
    if i < |acc| then acc[i := MergeFinding(acc[i], f)] else acc + [f]
  }

  function FoldIn(acc: seq<Finding>, fs: seq<Finding>): seq<Finding> {
    if fs == [] then acc
    else FoldOne(FoldIn(acc, fs[..|fs| - 1]), fs[|fs| - 1])
  }

  lemma FoldInSnoc(acc: seq<Finding>, fs: seq<Finding>, f: Finding)
    ensures FoldIn(acc, fs + [f]) == FoldOne(FoldIn(acc, fs), f)
  {
    var t := fs + [f];
    assert t[..|t| - 1] == fs && t[|t| - 1] == f;
  }

  lemma FoldOneIds(acc: seq<Finding>, f: Finding)
    requires DistinctIds(acc)
    ensures Ids(FoldOne(acc, f)) == if f.id in Ids(acc) then Ids(acc) else Ids(acc) + [f.id]
    ensures DistinctIds(FoldOne(acc, f))
  {
    var i := IndexOf(acc, f.id);
    var r := FoldOne(acc, f);
    if i < |acc| {
      assert Ids(acc)[i] == f.id;
      assert Ids(r) == Ids(acc);
    } else {
      assert forall k :: 0 <= k < |acc| ==> Ids(acc)[k] != f.id;
      MapSnoc(Id, acc, f);
    }
  }

  lemma {:induction false} FoldInIds(acc: seq<Finding>, fs: seq<Finding>)
    requires DistinctIds(acc)
    ensures DistinctIds(FoldIn(acc, fs))
    ensures Ids(FoldIn(acc, fs)) == Distinct(Ids(acc) + Ids(fs))
  {
    if fs == [] {
      assert Ids(acc) + Ids(fs) == Ids(acc);
      DistinctOfNoDuplicates(Ids(acc));
    } else {
      var n := |fs| - 1;
      FoldInIds(acc, fs[..n]);
      FoldOneIds(FoldIn(acc, fs[..n]), fs[n]);
      SplitLast(fs);
      MapSnoc(Id, fs[..n], fs[n]);
      ConcatAssociative(Ids(acc), Ids(fs[..n]), [fs[n].id]);
      DistinctSnoc(Ids(acc) + Ids(fs[..n]), fs[n].id);
    }
  }

  lemma {:induction false} FoldInDistinct(acc: seq<Finding>, fs: seq<Finding>)
    requires DistinctIds(acc + fs)
    ensures FoldIn(acc, fs) == acc + fs
  {
    if fs == [] {
      assert acc + fs == acc;
    } else {
      var n := |fs| - 1;
      var front := acc + fs[..n];
      SplitLast(fs);
      ConcatAssociative(acc, fs[..n], [fs[n]]);
      MapSnoc(Id, front, fs[n]);
      assert DistinctIds(front) by {
        assert Ids(front) == Ids(front + [fs[n]])[..|front|];
      }
      FoldInDistinct(acc, fs[..n]);
      forall k | 0 <= k < |front| ensures front[k].id != fs[n].id {
        assert Ids(front + [fs[n]])[k] != Ids(front + [fs[n]])[|front|];
      }
    }
  }

  // ----- one group of findings with the same identity -----

  function HasId(id: string): Finding -> bool { (f: Finding) => f.id == id }

  /** What is left of a group once every later member has been merged into the first. */
  function FoldGroup(g: seq<Finding>): Finding
    requires g != []
  {
    var n := |g| - 1;
    if n == 0 then g[0] else MergeFinding(FoldGroup(g[..n]), g[n])
  }

  lemma FilterIdSnoc(fs: seq<Finding>, f: Finding, id: string)
    ensures Filter(HasId(id), fs + [f]) == Filter(HasId(id), fs) + if f.id == id then [f] else []
  {
    FilterSnoc(HasId(id), fs, f);
  }

  lemma {:induction false} AbsentId(fs: seq<Finding>, id: string)
    requires id !in Ids(fs)
    ensures Filter(HasId(id), fs) == []
  {
    if fs != [] {
      var n := |fs| - 1;
      SplitLast(fs);
      MapSnoc(Id, fs[..n], fs[n]);
      AbsentId(fs[..n], id);
      FilterIdSnoc(fs[..n], fs[n], id);
    }
  }

  lemma FoldGroupSnoc(g: seq<Finding>, f: Finding)
    requires g != []
    ensures FoldGroup(g + [f]) == MergeFinding(FoldGroup(g), f)
  {
    hide MergeFinding;
    assert (g + [f])[..|g|] == g;
  }

  lemma IndexOfDistinct(acc: seq<Finding>, i: nat)
    requires i < |acc| && DistinctIds(acc)
    ensures IndexOf(acc, acc[i].id) == i
  {
    var j := IndexOf(acc, acc[i].id);
    assert Ids(acc)[i] == acc[i].id;
    if j < |acc| {
      assert Ids(acc)[j] == acc[j].id;
    }
  }

  ghost predicate IsGroup(out: seq<Finding>, fs: seq<Finding>, i: nat)
    requires i < |out|
  {
    var g := Filter(HasId(out[i].id), fs);
    g != [] && out[i] == FoldGroup(g)
  }

  lemma GroupStep(fs: seq<Finding>, f: Finding, acc: seq<Finding>, i: nat)
    requires acc == FoldIn([], fs) && DistinctIds(acc)
    requires forall id :: id in Ids(acc) <==> id in Ids(fs)
    requires forall k :: 0 <= k < |acc| ==> IsGroup(acc, fs, k)
    requires i < |FoldOne(acc, f)|
    ensures IsGroup(FoldOne(acc, f), fs + [f], i)
  {
    hide MergeFinding;
    hide FoldIn, FoldGroup;
    var out := FoldOne(acc, f);
    var id := out[i].id;
    var g := Filter(HasId(id), fs);
    FilterIdSnoc(fs, f, id);
    if i < |acc| {
      assert acc[i].id == id;
      assert IsGroup(acc, fs, i);
      IndexOfDistinct(acc, i);
      if id == f.id {
        FoldGroupSnoc(g, f);
      } else {
        assert g + [] == g;
      }
    } else {
      assert id !in Ids(acc);
      AbsentId(fs, id);
      assert out[i] == f;
      assert g + [f] == [f];
      FoldGroupOne(f);
    }
  }

  lemma FoldGroupOne(f: Finding)
    ensures FoldGroup([f]) == f
  {
  }

  /** The identities of a folded list, in order of first appearance. */
  lemma FoldedIds(fs: seq<Finding>)
    ensures DistinctIds(FoldIn([], fs))
    ensures Ids(FoldIn([], fs)) == Distinct(Ids(fs))
    ensures forall id :: id in Ids(FoldIn([], fs)) <==> id in Ids(fs)
  {
    hide FoldIn;
    FoldInIds([], fs);
    assert Ids([]) + Ids(fs) == Ids(fs);
  }

  /** Each entry of the folded list is the fold of exactly the findings that carry its identity. */
  lemma {:induction false} FoldInGroups(fs: seq<Finding>)
    ensures forall i :: 0 <= i < |FoldIn([], fs)| ==> IsGroup(FoldIn([], fs), fs, i)
  {
    hide FoldOne, IsGroup, Ids;
    if fs != [] {
      var n := |fs| - 1;
      FoldInGroups(fs[..n]);
      FoldedIds(fs[..n]);
      SplitLast(fs);
      forall i | 0 <= i < |FoldIn([], fs)| ensures IsGroup(FoldIn([], fs), fs, i) {
        GroupStep(fs[..n], fs[n], FoldIn([], fs[..n]), i);
      }
    }
  }

  function Max(a: int, b: int): int { if a < b then b else a }
  function Min(a: int, b: int): int { if a < b then a else b }

  function MaxConfidence(g: seq<Finding>): int {
    if g == [] then 0 else Max(MaxConfidence(g[..|g| - 1]), g[|g| - 1].confidence.Rank())
  }

  function ToolSet(g: seq<Finding>): set<string> {
    if g == [] then {} else ToolSet(g[..|g| - 1]) + SetOf(g[|g| - 1].tools)
  }

  /** The folded finding is as severe as the worst member of its group and no more. */
  lemma {:induction false} GroupSeverity(g: seq<Finding>)
    requires g != []
    ensures exists f :: f in g && f.severity == FoldGroup(g).severity
    ensures forall f :: f in g ==> f.severity.Rank() <= FoldGroup(g).severity.Rank()
  {
    var n := |g| - 1;
    SplitLast(g);
    if n == 0 {
      FoldGroupOne(g[0]);
    } else {
      var h := g[..n];
      GroupSeverity(h);
      var f :| f in h && f.severity == FoldGroup(h).severity;
      assert FoldGroup(g) == MergeFinding(FoldGroup(h), g[n]);
      WorseSeverity(FoldGroup(h), g[n]);
      hide FoldGroup, MergeFinding;
    }
  }

  lemma WorseSeverity(f: Finding, other: Finding)
    ensures var s := MergeFinding(f, other).severity;
            && (s == f.severity || s == other.severity) && f.severity.Rank() <= s.Rank() && other.severity.Rank() <= s.Rank()
  {
    hide MergeUnique, BringsNewTool, HigherConfidence;
  }

  function CveSet(g: seq<Finding>): set<string> {
    if g == [] then {} else CveSet(g[..|g| - 1]) + SetOf(g[|g| - 1].cve)
  }

  function CweSet(g: seq<Finding>): set<string> {
    if g == [] then {} else CweSet(g[..|g| - 1]) + SetOf(g[|g| - 1].cwe)
  }

  lemma MergeUniqueSet(a: seq<string>, b: seq<string>)
    ensures SetOf(MergeUnique(a, b)) == SetOf(a) + SetOf(b)
  {
  }

  /** It lists exactly the tools, CVEs and CWEs of its group and keeps every piece of evidence. */
  lemma {:induction false} GroupUnions(g: seq<Finding>)
    requires g != []
    ensures SetOf(FoldGroup(g).tools) == ToolSet(g)
    ensures SetOf(FoldGroup(g).cve) == CveSet(g)
    ensures SetOf(FoldGroup(g).cwe) == CweSet(g)
    ensures FoldGroup(g).evidence == AllEvidence(g)
  {
    var n := |g| - 1;
    if n > 0 {
      GroupUnions(g[..n]);
      var f := FoldGroup(g[..n]);
      MergeUniqueSet(f.tools, g[n].tools);
      MergeUniqueSet(f.cve, g[n].cve);
      MergeUniqueSet(f.cwe, g[n].cwe);
    }
  }

  lemma {:induction false} SetsOfMembers(g: seq<Finding>)
    ensures forall t :: t in ToolSet(g) <==> exists f :: f in g && t in f.tools
    ensures forall t :: t in CveSet(g) <==> exists f :: f in g && t in f.cve
    ensures forall t :: t in CweSet(g) <==> exists f :: f in g && t in f.cwe
  {
    if g != [] {
      SplitLast(g);
      SetsOfMembers(g[..|g| - 1]);
    }
  }

  function AllEvidence(g: seq<Finding>): seq<Evidence> {
    if g == [] then [] else AllEvidence(g[..|g| - 1]) + g[|g| - 1].evidence
  }

  /** The confidence of a group on its own: the higher statement, one step up for a new tool. */
  ghost function ConfidenceFold(g: seq<Finding>): Confidence
    requires g != []
  {
    var n := |g| - 1;
    if n == 0 then g[0].confidence
    else
      var c := HigherConfidence(ConfidenceFold(g[..n]), g[n].confidence);
      if SetOf(g[n].tools) <= ToolSet(g[..n]) then c else c.Promote()
  }

  lemma NewToolSets(f: Finding, other: Finding)
    ensures BringsNewTool(f, other) <==> !(SetOf(other.tools) <= SetOf(f.tools))
  {
    if BringsNewTool(f, other) {
      var t :| t in other.tools && t !in f.tools;
      assert t in SetOf(other.tools) && t !in SetOf(f.tools);
    }
    if !(SetOf(other.tools) <= SetOf(f.tools)) {
      var t :| t in SetOf(other.tools) && t !in SetOf(f.tools);
      assert t in other.tools && t !in f.tools;
    }
  }

  lemma {:induction false} ConfidenceOfGroup(g: seq<Finding>)
    requires g != []
    ensures FoldGroup(g).confidence == ConfidenceFold(g)
  {
    var n := |g| - 1;
    if n > 0 {
      ConfidenceOfGroup(g[..n]);
      GroupUnions(g[..n]);
      NewToolSets(FoldGroup(g[..n]), g[n]);
    }
  }

  lemma MergedRank(a: Confidence, b: Confidence)
    ensures HigherConfidence(a, b).Rank() == Max(a.Rank(), b.Rank()) <= 3
    ensures var c := HigherConfidence(a, b);
            && c.Rank() <= c.Promote().Rank() <= Min(3, c.Rank() + 1)
            && (0 < c.Rank() ==> c.Promote().Rank() == Min(3, c.Rank() + 1))
  {
  }

  lemma GrowingSet<T>(a: set<T>, b: set<T>)
    ensures |a| <= |a + b|
    ensures !(b <= a) ==> |a| + 1 <= |a + b|
  {
    SubsetSize(a, a + b);
    if t :| t in b && t !in a {
      SubsetSize(a + {t}, a + b);
    }
  }

  lemma FoldUnfolds(g: seq<Finding>)
    requires |g| > 1
    ensures var h, f := g[..|g| - 1], g[|g| - 1];
            && ToolSet(g) == ToolSet(h) + SetOf(f.tools)
            && MaxConfidence(g) == Max(MaxConfidence(h), f.confidence.Rank())
            && ConfidenceFold(g) == var c := HigherConfidence(ConfidenceFold(h), f.confidence);
                                    if SetOf(f.tools) <= ToolSet(h) then c else c.Promote()
  {
    hide HigherConfidence, Confidence.Rank, Confidence.Promote, SetOf;
  }

  lemma OneStatement(g: seq<Finding>)
    requires |g| == 1 && g[0].tools != []
    ensures ToolSet(g) == SetOf(g[0].tools) && 1 <= |ToolSet(g)|
    ensures MaxConfidence(g) == g[0].confidence.Rank() == ConfidenceFold(g).Rank() <= 3
  {
    hide HigherConfidence;
    assert ToolSet(g[..0]) == {} && MaxConfidence(g[..0]) == 0;
    assert g[0].tools[0] in ToolSet(g);
    MergedRank(g[0].confidence, g[0].confidence);
  }

  lemma {:induction false} ConfidenceFoldBounds(g: seq<Finding>)
    requires g != [] && g[0].tools != []
    ensures 1 <= |ToolSet(g)|
    ensures MaxConfidence(g) <= ConfidenceFold(g).Rank()
    ensures ConfidenceFold(g).Rank() <= Min(3, MaxConfidence(g) + |ToolSet(g)| - 1)
  {
    hide HigherConfidence;
    hide Confidence.Rank, Confidence.Promote, SetOf;
    var n := |g| - 1;
    if n == 0 {
      OneStatement(g);
    } else {
      var h := g[..n];
      ConfidenceFoldBounds(h);
      MergedRank(ConfidenceFold(h), g[n].confidence);
      GrowingSet(ToolSet(h), SetOf(g[n].tools));
      FoldUnfolds(g);
      hide ConfidenceFold, ToolSet, MaxConfidence;
    }
  }

  /** Confidence never drops below the best single statement, and gains at most one step for each tool
      after the first. */
  lemma GroupConfidence(g: seq<Finding>)
    requires g != [] && g[0].tools != []
    ensures MaxConfidence(g) <= FoldGroup(g).confidence.Rank()
    ensures FoldGroup(g).confidence.Rank() <= Min(3, MaxConfidence(g) + |ToolSet(g)| - 1)
  {
    ConfidenceOfGroup(g);
    ConfidenceFoldBounds(g);
  }

  // ----- one step of the fold -----

  lemma FoldOneHit(acc: seq<Finding>, f: Finding, j: nat)
    requires j < |acc| && DistinctIds(acc) && acc[j].id == f.id
    ensures FoldOne(acc, f) == acc[j := MergeFinding(acc[j], f)]
    ensures DistinctIds(FoldOne(acc, f)) && Ids(FoldOne(acc, f)) == Ids(acc)
  {
    hide MergeFinding;
    IndexOfDistinct(acc, j);
    FoldOneIds(acc, f);
    assert Ids(acc)[j] == f.id;
  }

  lemma FoldOneMiss(acc: seq<Finding>, f: Finding)
    requires DistinctIds(acc) && f.id !in Ids(acc)
    ensures FoldOne(acc, f) == acc + [f]
    ensures DistinctIds(FoldOne(acc, f)) && Ids(FoldOne(acc, f)) == Ids(acc) + [f.id]
  {
    hide MergeFinding;
    FoldOneIds(acc, f);
    forall k | 0 <= k < |acc| ensures acc[k].id != f.id {
      assert Ids(acc)[k] == acc[k].id;
    }
  }

  predicate Corroborated(f: Finding) { |f.tools| > 1 }

  lemma CorroboratedSnoc(fs: seq<Finding>, f: Finding)
    ensures |Filter(Corroborated, fs + [f])| == |Filter(Corroborated, fs)| + if |f.tools| > 1 then 1 else 0
  {
    FilterSnoc(Corroborated, fs, f);
  }

  lemma FilterNothing(fs: seq<Finding>)
    ensures Filter(Corroborated, fs[..0]) == []
  {
  }

  // ----- ranking and capping -----

  function Rank(fs: seq<Finding>): seq<Finding> { SortFindings(fs) }

  datatype Capped = Capped(shown: seq<Finding>, total: nat, withheld: nat)

  function ApplyCap(fs: seq<Finding>, limit: int): Capped {
    if limit <= 0 || |fs| <= limit then Capped(fs, |fs|, 0)
    else Capped(fs[..limit], |fs|, |fs| - limit)
  }

  /** Correlate, rank, cap and store, end to end: the stored list is exactly the ranked one, a second
      correlation finds nothing left to merge, and the cap withholds only a lower-ranked tail. */
  lemma RankedPipeline(collected: seq<Finding>, limit: int)
    ensures var merged := FoldIn([], collected);
            var ranked := Rank(merged);
            var capped := ApplyCap(ranked, limit);
            && FoldIn([], merged) == merged
            && multiset(ranked) == multiset(merged) && DistinctIds(ranked)
            && FoldIn([], ranked) == ranked
            && |capped.shown| + capped.withheld == capped.total == |merged|
            && capped.shown <= ranked
            && forall i, j :: 0 <= i < |capped.shown| <= j < |ranked| ==>
                 MayPrecede(ranked[i], ranked[j]) && !MayPrecede(ranked[j], ranked[i])
  {
    hide FoldIn, FindingLeq, MayPrecede, SortBy;
    FindingOrder();
    var merged := FoldIn([], collected);
    var ranked := Rank(merged);
    FoldedIds(collected);
    RankedIsStrict(merged);
    FoldAgain(merged);
    FoldAgain(ranked);
  }

  lemma FoldAgain(fs: seq<Finding>)
    requires DistinctIds(fs)
    ensures FoldIn([], fs) == fs
  {
    assert [] + fs == fs;
    FoldInDistinct([], fs);
  }

  lemma RankedIsStrict(fs: seq<Finding>)
    requires DistinctIds(fs)
    ensures DistinctIds(Rank(fs))
    ensures forall i, j :: 0 <= i < j < |fs| ==>
              FindingLeq(Rank(fs)[i], Rank(fs)[j]) && !FindingLeq(Rank(fs)[j], Rank(fs)[i])
  {
    hide FindingLeq, SortBy;
    var ranked := Rank(fs);
    FindingOrder();
    SortBySorted(FindingLeq, fs);
    MapPermutes(Id, fs, ranked);
    NoDuplicatesPermutes(Ids(fs), Ids(ranked));
    forall i, j | 0 <= i < j < |fs| ensures FindingLeq(ranked[i], ranked[j]) && !FindingLeq(ranked[j], ranked[i]) {
      assert Ids(ranked)[i] != Ids(ranked)[j];
    }
  }
}
