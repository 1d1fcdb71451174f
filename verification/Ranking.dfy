/** What ranking promises to a reader of the list (internal/finding/finding.go, internal/orchestrator/orchestrator.go):
    worst first, key by key, and a cap that withholds nothing worse than what it shows. */
module Ranking {
  import opened Text
  import opened Ordering
  import opened Findings
  import opened Correlate

  /** A ranked list is worst first, and holds what was ranked. */
  lemma RankedWorstFirst(fs: seq<Finding>)
    ensures WorstFirst(Rank(fs)) && multiset(Rank(fs)) == multiset(fs)
  {
    hide SortBy;
    FindingOrder();
    SortBySorted(FindingLeq, fs);
    hide StrLeq;
    StrOrder();
    forall i, j | 0 <= i < j < |Rank(fs)| ensures MayPrecede(Rank(fs)[i], Rank(fs)[j]) {
      assert FindingLeq(Rank(fs)[i], Rank(fs)[j]);
    }
  }

  /** The cap shows the first `limit` of a ranked list, or all for a limit of zero or less; what it withholds is no
      worse than anything shown, and no surer where it is as bad. */
  lemma CapWithholdsTheMildest(fs: seq<Finding>, limit: int, s: Finding, w: Finding)
    requires WorstFirst(fs)
    ensures var c := ApplyCap(fs, limit);
            && c.total == |fs| == |c.shown| + c.withheld
            && |c.shown| == (if limit <= 0 || |fs| < limit then |fs| else limit)
            && c.shown == fs[..|c.shown|]
            && (s in c.shown && w in fs[|c.shown|..] ==>
                 && w.severity.Rank() <= s.severity.Rank()
                 && (w.severity.Rank() == s.severity.Rank() ==> w.confidence.Rank() <= s.confidence.Rank()))
  {
    var n := |ApplyCap(fs, limit).shown|;
    if s in fs[..n] && w in fs[n..] {
      var i :| 0 <= i < n && fs[..n][i] == s;
      var j :| 0 <= j < |fs| - n && fs[n..][j] == w;
      assert MayPrecede(fs[i], fs[n + j]);
    }
  }
}
