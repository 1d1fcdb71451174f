/** Where internal/orchestrator/orchestrator.go hands the findings of a run to `correlate.Merge`: `RunnerLoop` follows
    their values, `Correlation` the arrays their lists lie in, and here the two meet. */
module RunnerMerge {
  import opened Ordering
  import opened Findings
  import opened Slices
  import opened FindingRecords
  import opened SharedSlices
  import opened SharedFull
  import opened Correlate
  import opened Correlation
  import opened CallersLists
  import opened Runner
  import opened RunnerLoop

  /** The findings that the calls of a run gathered, as records. When arrays are shared only where lists fill them, what
      is ranked and stored is what `RunJob` says exactly if no finding on its own loses the order of its lists. */
  method MergeGathered(collected: seq<FindingRecord>, ghost calls: seq<Call>, ghost annotate: Finding -> Finding)
    returns (merged: seq<FindingRecord>, st: Stats)
    requires RolesApart(collected) && Values(collected) == Gathered(calls)
    modifies Backings(CveLists(collected)), Backings(CweLists(collected))
    ensures var z := old(SceneOf(collected)); Filled(z) ==> (Values(merged) == Merged(calls) <==> InOrderStill(z))
    ensures var z := old(SceneOf(collected)); Filled(z) && InOrderStill(z) ==>
              Rank(MapSeq(annotate, Values(merged))) == Ranked(calls, annotate) && st.output == |Merged(calls)|
    ensures st.input == |Gathered(calls)| && st.input == st.output + st.merged
  {
    hide *;
    ghost var z := SceneOf(collected);
    SceneMeans(collected);
    merged, st := Merge(collected);
    Counted(z, merged, st);
    RankedIs(calls, annotate);
  }

  lemma Counted(z: Scene, out: seq<FindingRecord>, st: Stats)
    requires |z.vals| == |z.cves| == |z.cwes| && Outcome(z, out, st)
    ensures st.input == |z.vals| && st.input == st.output + st.merged && st.output == |FoldIn([], z.vals)|
  {
    hide FoldIn, Pass, Left, Filter, FindingRecord.Value;
  }

  lemma RankedIs(calls: seq<Call>, annotate: Finding -> Finding)
    ensures Merged(calls) == FoldIn([], Gathered(calls)) && Ranked(calls, annotate) == Rank(MapSeq(annotate, Merged(calls)))
  {
  }

  /** What the adapters of this repository gather: lists of their own, or sorted literals. The run stores and counts
      exactly what `RunJob` says. */
  method MergeLiterals(collected: seq<FindingRecord>, ghost calls: seq<Call>, ghost annotate: Finding -> Finding)
    returns (merged: seq<FindingRecord>)
    requires RolesApart(collected) && Values(collected) == Gathered(calls) && Filled(SceneOf(collected))
    requires SharedSorted(Snapshot(CveLists(collected)), CveLists(collected))
    requires SharedSorted(Snapshot(CweLists(collected)), CweLists(collected))
    modifies Backings(CveLists(collected)), Backings(CweLists(collected))
    ensures Values(merged) == Merged(calls) && Rank(MapSeq(annotate, Values(merged))) == Ranked(calls, annotate)
  {
    hide *;
    merged := CorrelateLiterals(collected);
    RankedIs(calls, annotate);
  }
}
