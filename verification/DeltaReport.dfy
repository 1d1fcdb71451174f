/** internal/delta/delta.go: the report of a comparison, entry by entry: which run each statement is taken from, and in
    what order a reader meets them. */
module DeltaReport {
  import opened Text
  import opened Ordering
  import opened Findings
  import opened Delta

  function OfClass(s: Severity): Finding -> bool { (f: Finding) => f.severity == s }

  /** Class by class the number of findings of a run. */
  predicate Counts(c: Findings.Counts, fs: seq<Finding>) {
    && c.critical == |Filter(OfClass(Critical), fs)| && c.high == |Filter(OfClass(High), fs)|
    && c.medium == |Filter(OfClass(Medium), fs)| && c.low == |Filter(OfClass(Low), fs)|
    && c.info == |Filter(OfClass(Info), fs)| && c.total == |fs|
  }

  /** How a severity moved between two runs. */
  function Moved(was: Severity, now: Severity): Change {
    if was.Rank() < now.Rank() then Regressed else if was.Rank() > now.Rank() then Improved else Persisting
  }

  ghost predicate Lacks(fs: seq<Finding>, id: string) { forall f :: f in fs ==> f.id != id }

  ghost predicate ToldOfBoth(e: Entry, was: Finding) {
    && was.id == e.finding.id
    && e == Entry(Moved(was.severity, e.finding.severity), e.finding, was.severity, was.confidence)
  }

  /** An entry for a finding of the current run alone, of both, or of the baseline alone. */
  ghost predicate Told(e: Entry, baseline: seq<Finding>, current: seq<Finding>) {
    || (e.finding in current && Lacks(baseline, e.finding.id)
        && e == Entry(New, e.finding, OtherSeverity(""), OtherConfidence("")))
    || (e.finding in current && exists b :: b in baseline && ToldOfBoth(e, b))
    || (e.finding in baseline && Lacks(current, e.finding.id)
        && e == Entry(Resolved, e.finding, e.finding.severity, OtherConfidence("")))
  }

  /** The sections of a report. */
  function Section(c: Change): nat {
    match c
    case New => 0
    case Regressed => 1
    case Persisting => 2
    case Improved => 3
    case Resolved => 4
  }

  /** `a` is read before `b`: its section comes first, or it is worse, or surer, or first by identity. */
  predicate ReadBefore(a: Entry, b: Entry) {
    var (p, q) := (a.finding, b.finding);
    && Section(a.change) <= Section(b.change)
    && (a.change == b.change ==> p.severity.Rank() >= q.severity.Rank())
    && (a.change == b.change && p.severity.Rank() == q.severity.Rank() ==> p.confidence.Rank() >= q.confidence.Rank())
    && (a.change == b.change && p.severity.Rank() == q.severity.Rank() && p.confidence.Rank() == q.confidence.Rank() ==>
         StrLeq(p.id, q.id))
  }

  function InSection(c: Change): Entry -> bool { (e: Entry) => e.change == c }

  lemma {:induction false} ClassCount(fs: seq<Finding>, s: Severity)
    ensures multiset(MapSeq((f: Finding) => f.severity, fs))[s] == |Filter(OfClass(s), fs)|
  {
    var sev := (f: Finding) => f.severity;
    if fs != [] {
      var n := |fs| - 1;
      SplitLast(fs);
      ClassCount(fs[..n], s);
      FilterStep(OfClass(s), fs[..n], fs[n]);
      MapSnoc(sev, fs[..n], fs[n]);
    }
  }

  lemma CountMeans(fs: seq<Finding>)
    ensures Counts(Count(fs), fs)
  {
    hide Filter, MapSeq;
    ClassCount(fs, Critical);
    ClassCount(fs, High);
    ClassCount(fs, Medium);
    ClassCount(fs, Low);
    ClassCount(fs, Info);
  }

  lemma EntriesTold(baseline: seq<Finding>, current: seq<Finding>, e: Entry)
    requires DistinctIds(baseline) && DistinctIds(current) && e in Entries(baseline, current)
    ensures Told(e, baseline, current)
  {
    hide Entries, BaseIndex;
    EntryOrigin(baseline, current, e);
    var id := e.finding.id;
    BaseIndexLookup(baseline, id);
    LookupOut(baseline, id);
    LacksMeans(baseline, id);
    LacksMeans(current, id);
  }

  lemma LacksMeans(fs: seq<Finding>, id: string)
    ensures Lacks(fs, id) <==> id !in Ids(fs)
  {
    if id in Ids(fs) {
      var k :| 0 <= k < |fs| && Ids(fs)[k] == id;
      assert fs[k] in fs;
    }
    forall f | f in fs ensures f.id in Ids(fs) {
      var k :| 0 <= k < |fs| && fs[k] == f;
      assert Ids(fs)[k] == f.id;
    }
  }

  lemma SortedToRead(es: seq<Entry>)
    ensures forall i, j :: 0 <= i < j < |es| ==> ReadBefore(SortEntries(es)[i], SortEntries(es)[j])
  {
    hide SortBy, StrLeq;
    EntryOrder();
    SortBySorted(EntryLeq, es);
    StrOrder();
    forall i, j | 0 <= i < j < |es| ensures ReadBefore(SortEntries(es)[i], SortEntries(es)[j]) {
      assert EntryLeq(SortEntries(es)[i], SortEntries(es)[j]);
    }
  }

  lemma CountOfSorted(es: seq<Entry>, c: Change)
    ensures CountChange(es, c) == |Filter(InSection(c), SortEntries(es))|
  {
    hide Filter, SortEntries;
    FilterPermutes(HasChange(c), es, SortEntries(es));
    SameElements(Filter(HasChange(c), es), Filter(HasChange(c), SortEntries(es)));
    SameSections(c, SortEntries(es));
  }

  lemma {:induction false} SameSections(c: Change, es: seq<Entry>)
    ensures Filter(HasChange(c), es) == Filter(InSection(c), es)
  {
    if es != [] {
      SameSections(c, es[..|es| - 1]);
    }
  }

  /** The report of a run against its baseline: the tally before is the baseline's and the tally after the current
      run's; every identity of either has one entry, told from the run it is in; the sections stand in order, the
      worst first in each; and the counters are the sizes of the sections. */
  lemma ReportMeans(baseline: seq<Finding>, current: seq<Finding>, baselineId: string, currentId: string,
                    baselineAt: int, currentAt: int)
    requires DistinctIds(baseline) && DistinctIds(current) && baselineId != ""
    ensures var r := CompareRuns(baseline, current, baselineId, currentId, baselineAt, currentAt);
            && (r.baselineId, r.baselineAt, r.currentId, r.currentAt) == (baselineId, baselineAt, currentId, currentAt)
            && Counts(r.before, baseline) && Counts(r.after, current)
            && (forall e :: e in r.entries ==> Told(e, baseline, current))
            && NoDuplicates(EntryIds(r.entries)) && SetOf(EntryIds(r.entries)) == SetOf(Ids(baseline)) + SetOf(Ids(current))
            && (forall i, j :: 0 <= i < j < |r.entries| ==> ReadBefore(r.entries[i], r.entries[j]))
            && r.counts.added == |Filter(InSection(New), r.entries)|
            && r.counts.resolved == |Filter(InSection(Resolved), r.entries)|
            && r.counts.regressed == |Filter(InSection(Regressed), r.entries)|
            && r.counts.improved == |Filter(InSection(Improved), r.entries)|
            && r.counts.persisting == |Filter(InSection(Persisting), r.entries)|
  {
    hide Entries, Count, Counts, Filter, SortBy, Told, ReadBefore, NoDuplicates, CountChange;
    var es := Entries(baseline, current);
    CountMeans(baseline);
    CountMeans(current);
    EveryIdentityPlacedOnce(baseline, current);
    SortedToRead(es);
    var out := SortEntries(es);
    SameElements(es, out);
    forall e | e in out ensures Told(e, baseline, current) {
      EntriesTold(baseline, current, e);
    }
    MapPermutes(EntryId, es, out);
    SameElements(EntryIds(es), EntryIds(out));
    NoDuplicatesPermutes(EntryIds(es), EntryIds(out));
    CountOfSorted(es, New);
    CountOfSorted(es, Resolved);
    CountOfSorted(es, Regressed);
    CountOfSorted(es, Improved);
    CountOfSorted(es, Persisting);
  }

  /** The report of a first run: every finding is simply there, and nothing is said to have changed. */
  lemma FirstReportMeans(current: seq<Finding>, baseline: seq<Finding>, currentId: string, baselineAt: int, currentAt: int)
    ensures var r := CompareRuns(baseline, current, "", currentId, baselineAt, currentAt);
            && (r.baselineId, r.baselineAt, r.currentId, r.currentAt) == ("", baselineAt, currentId, currentAt)
            && Counts(r.before, baseline) && Counts(r.after, current)
            && (forall e :: e in r.entries ==> e == Entry(Persisting, e.finding, OtherSeverity(""), OtherConfidence("")))
            && multiset(MapSeq((e: Entry) => e.finding, r.entries)) == multiset(current)
            && (forall i, j :: 0 <= i < j < |r.entries| ==> ReadBefore(r.entries[i], r.entries[j]))
            && r.counts == ChangeCounts(0, 0, 0, 0, |current|)
  {
    hide Count, Counts, SortBy, ReadBefore;
    CountMeans(baseline);
    CountMeans(current);
    var es := MapSeq(Unchanged, current);
    SortedToRead(es);
    var out := SortEntries(es);
    SameElements(es, out);
    var back := (e: Entry) => e.finding;
    MapPermutes(back, es, out);
    assert MapSeq(back, es) == current;
  }
}
