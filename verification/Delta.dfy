/** internal/delta/delta.go: the comparison of two runs by finding identity. */
module Delta {
  import opened Text
  import opened Ordering
  import opened Findings

  datatype Change = New | Resolved | Regressed | Improved | Persisting {
    function Rank(): nat {
      match this
      case New => 5
      case Regressed => 4
      case Persisting => 3
      case Improved => 2
      case Resolved => 1
    }

    /** What the change looks like with the runs exchanged. */
    function Mirror(): Change {
      match this
      case New => Resolved
      case Resolved => New
      case Regressed => Improved
      case Improved => Regressed
      case Persisting => Persisting
    }
  }

  datatype Entry = Entry(change: Change, finding: Finding, wasSeverity: Severity, wasConfidence: Confidence)

  const NO_SEVERITY := OtherSeverity("")
  const NO_CONFIDENCE := OtherConfidence("")

  datatype ChangeCounts = ChangeCounts(added: nat, resolved: nat, regressed: nat, improved: nat, persisting: nat) {
    function Total(): nat { added + resolved + regressed + improved + persisting }

    function Of(c: Change): nat {
      match c
      case New => added
      case Resolved => resolved
      case Regressed => regressed
      case Improved => improved
      case Persisting => persisting
    }
  }

  datatype Result = Result(
    currentId: string, baselineId: string, currentAt: int, baselineAt: int,
    entries: seq<Entry>, counts: ChangeCounts, before: Counts, after: Counts)
  {
    predicate HasBaseline() { baselineId != "" }
  }

  // ----- the comparison -----

  function BaseIndex(baseline: seq<Finding>): map<string, Finding> {
    if baseline == [] then map[]
    else BaseIndex(baseline[..|baseline| - 1])[baseline[|baseline| - 1].id := baseline[|baseline| - 1]]
  }

  function ChangeFrom(was: Finding, now: Finding): Change {
    if now.severity.Rank() > was.severity.Rank() then Regressed
    else if now.severity.Rank() < was.severity.Rank() then Improved
    else Persisting
  }

  function Present(base: map<string, Finding>): Finding -> Entry {
    (f: Finding) =>
      if f.id in base then Entry(ChangeFrom(base[f.id], f), f, base[f.id].severity, base[f.id].confidence)
      else Entry(New, f, NO_SEVERITY, NO_CONFIDENCE)
  }

  function Gone(f: Finding): Entry { Entry(Resolved, f, f.severity, NO_CONFIDENCE) }

  function Unchanged(f: Finding): Entry { Entry(Persisting, f, NO_SEVERITY, NO_CONFIDENCE) }

  function NotAmong(ids: seq<string>): Finding -> bool { (f: Finding) => f.id !in ids }

  function Entries(baseline: seq<Finding>, current: seq<Finding>): seq<Entry> {
    MapSeq(Present(BaseIndex(baseline)), current) + MapSeq(Gone, Filter(NotAmong(Ids(current)), baseline))
  }

  function HasChange(c: Change): Entry -> bool { (e: Entry) => e.change == c }

  function CountChange(es: seq<Entry>, c: Change): nat { |Filter(HasChange(c), es)| }

  function CountChanges(es: seq<Entry>): ChangeCounts {
    ChangeCounts(CountChange(es, New), CountChange(es, Resolved), CountChange(es, Regressed),
                 CountChange(es, Improved), CountChange(es, Persisting))
  }

  predicate EntryLeq(a: Entry, b: Entry) {
    if a.change.Rank() != b.change.Rank() then a.change.Rank() > b.change.Rank()
    else if a.finding.severity.Rank() != b.finding.severity.Rank()
      then a.finding.severity.Rank() > b.finding.severity.Rank()
    else if a.finding.confidence.Rank() != b.finding.confidence.Rank()
      then a.finding.confidence.Rank() > b.finding.confidence.Rank()
    else StrLeq(a.finding.id, b.finding.id)
  }

  function SortEntries(es: seq<Entry>): (r: seq<Entry>)
    ensures multiset(r) == multiset(es) && |r| == |es|
  {
    SortBy(EntryLeq, es)
  }

  /** The comparison as a whole. Without a baseline every finding is simply present. */
  function CompareRuns(baseline: seq<Finding>, current: seq<Finding>, baselineId: string, currentId: string,
                       baselineAt: int, currentAt: int): Result
  {
    if baselineId == "" then
      Result(currentId, baselineId, currentAt, baselineAt, SortEntries(MapSeq(Unchanged, current)),
             ChangeCounts(0, 0, 0, 0, |current|), Count(baseline), Count(current))
    else
      var es := Entries(baseline, current);
      Result(currentId, baselineId, currentAt, baselineAt, SortEntries(es), CountChanges(es),
             Count(baseline), Count(current))
  }

  // ----- the loops of the source -----

  lemma BaseIndexSnoc(fs: seq<Finding>, f: Finding)
    ensures BaseIndex(fs + [f]) == BaseIndex(fs)[f.id := f]
  {
    var t := fs + [f];
    assert t[..|t| - 1] == fs && t[|t| - 1] == f;
  }

  lemma CountSnocEntry(es: seq<Entry>, e: Entry)
    ensures CountChanges(es + [e]) ==
      var c := CountChanges(es);
      match e.change
      case New => c.(added := c.added + 1)
      case Resolved => c.(resolved := c.resolved + 1)
      case Regressed => c.(regressed := c.regressed + 1)
      case Improved => c.(improved := c.improved + 1)
      case Persisting => c.(persisting := c.persisting + 1)
  {
    FilterStep(HasChange(New), es, e);
    FilterStep(HasChange(Resolved), es, e);
    FilterStep(HasChange(Regressed), es, e);
    FilterStep(HasChange(Improved), es, e);
    FilterStep(HasChange(Persisting), es, e);
  }

  method IndexBaseline(baseline: seq<Finding>) returns (base: map<string, Finding>)
    ensures base == BaseIndex(baseline)
  {
    base := map[];
    for i := 0 to |baseline|
      invariant base == BaseIndex(baseline[..i])
    {
      TakeNext(baseline, i);
      BaseIndexSnoc(baseline[..i], baseline[i]);
      base := base[baseline[i].id := baseline[i]];
    }
    assert baseline[..|baseline|] == baseline;
  }

  /** First pass: every finding of the current run. */
  method PlaceCurrent(base: map<string, Finding>, current: seq<Finding>)
    returns (es: seq<Entry>, counts: ChangeCounts, seen: set<string>)
    ensures es == MapSeq(Present(base), current)
    ensures counts == CountChanges(es)
    ensures forall id :: id in seen <==> id in Ids(current)
  {
    es, counts, seen := [], ChangeCounts(0, 0, 0, 0, 0), {};
    for i := 0 to |current|
      invariant es == MapSeq(Present(base), current[..i])
      invariant counts == CountChanges(es)
      invariant forall id :: id in seen <==> id in Ids(current[..i])
    {
      hide CountChanges;
      var f := current[i];
      TakeNext(current, i);
      MapSnoc(Present(base), current[..i], f);
      MapSnoc(Id, current[..i], f);
      seen := seen + {f.id};
      var e := Entry(New, f, NO_SEVERITY, NO_CONFIDENCE);
      if f.id !in base {
        counts := counts.(added := counts.added + 1);
      } else {
        var prev := base[f.id];
        e := e.(wasSeverity := prev.severity, wasConfidence := prev.confidence);
        if f.severity.Rank() > prev.severity.Rank() {
          e, counts := e.(change := Regressed), counts.(regressed := counts.regressed + 1);
        } else if f.severity.Rank() < prev.severity.Rank() {
          e, counts := e.(change := Improved), counts.(improved := counts.improved + 1);
        } else {
          e, counts := e.(change := Persisting), counts.(persisting := counts.persisting + 1);
        }
      }
      CountSnocEntry(es, e);
      es := es + [e];
    }
    assert current[..|current|] == current;
  }

  /** Second pass: what the current run no longer holds. */
  method PlaceResolved(baseline: seq<Finding>, ids: seq<string>, seen: set<string>, es0: seq<Entry>, counts0: ChangeCounts)
    returns (es: seq<Entry>, counts: ChangeCounts)
    requires counts0 == CountChanges(es0) && forall id :: id in seen <==> id in ids
    ensures es == es0 + MapSeq(Gone, Filter(NotAmong(ids), baseline))
    ensures counts == CountChanges(es)
  {
    hide CountChanges;
    es, counts := es0, counts0;
    assert es0 + [] == es0;
    for i := 0 to |baseline|
      invariant es == es0 + MapSeq(Gone, Filter(NotAmong(ids), baseline[..i]))
      invariant counts == CountChanges(es)
    {
      var f := baseline[i];
      TakeNext(baseline, i);
      FilterStep(NotAmong(ids), baseline[..i], f);
      if f.id in seen {
        continue;
      }
      MapSnoc(Gone, Filter(NotAmong(ids), baseline[..i]), f);
      ConcatAssociative(es0, MapSeq(Gone, Filter(NotAmong(ids), baseline[..i])), [Gone(f)]);
      CountSnocEntry(es, Gone(f));
      es := es + [Gone(f)];
      counts := counts.(resolved := counts.resolved + 1);
    }
    assert baseline[..|baseline|] == baseline;
  }

  method Compare(baseline: seq<Finding>, current: seq<Finding>, baselineId: string, currentId: string,
                 baselineAt: int, currentAt: int) returns (r: Result)
    ensures r == CompareRuns(baseline, current, baselineId, currentId, baselineAt, currentAt)
  {
    hide CountChanges, MapSeq, Filter, BaseIndex, SortBy, Count;
    var before := CountLoop(baseline);
    var after := CountLoop(current);
    if baselineId == "" {
      var es: seq<Entry> := MapSeq(Unchanged, current);
      return Result(currentId, baselineId, currentAt, baselineAt, SortEntries(es),
                    ChangeCounts(0, 0, 0, 0, |current|), before, after);
    }
    var base := IndexBaseline(baseline);
    var es, counts, seen := PlaceCurrent(base, current);
    es, counts := PlaceResolved(baseline, Ids(current), seen, es, counts);
    r := Result(currentId, baselineId, currentAt, baselineAt, SortEntries(es), counts, before, after);
  }

  // ----- every identity placed exactly once -----

  function Lookup(fs: seq<Finding>, id: string): Option<Finding> {
    if fs == [] then None
    else if fs[0].id == id then Some(fs[0])
    else Lookup(fs[1..], id)
  }

  lemma {:induction false} LookupIn(fs: seq<Finding>, f: Finding)
    requires f in fs && DistinctIds(fs)
    ensures Lookup(fs, f.id) == Some(f)
  {
    if fs[0] != f {
      var k :| 0 <= k < |fs| && fs[k] == f;
      assert Ids(fs)[0] != Ids(fs)[k];
      assert f == fs[1..][k - 1];
      assert Ids(fs)[1..] == Ids(fs[1..]);
      LookupIn(fs[1..], f);
    }
  }

  lemma {:induction false} LookupOut(fs: seq<Finding>, id: string)
    ensures Lookup(fs, id).None? <==> id !in Ids(fs)
    ensures Lookup(fs, id).Some? ==> Lookup(fs, id).value in fs && Lookup(fs, id).value.id == id
  {
    if fs != [] {
      LookupOut(fs[1..], id);
      assert Ids(fs) == [fs[0].id] + Ids(fs[1..]);
    }
  }

  lemma {:induction false} BaseIndexLookup(fs: seq<Finding>, id: string)
    requires DistinctIds(fs)
    ensures id in BaseIndex(fs) <==> Lookup(fs, id).Some?
    ensures id in BaseIndex(fs) ==> Lookup(fs, id) == Some(BaseIndex(fs)[id])
  {
    LookupOut(fs, id);
    if fs != [] {
      var n := |fs| - 1;
      SplitLast(fs);
      assert DistinctIds(fs[..n]) by { assert Ids(fs[..n]) == Ids(fs)[..n]; }
      BaseIndexLookup(fs[..n], id);
      LookupOut(fs[..n], id);
      if id == fs[n].id {
        LookupIn(fs, fs[n]);
      } else if Lookup(fs[..n], id).Some? {
        LookupIn(fs, Lookup(fs[..n], id).value);
      }
    }
  }

  /** The class of an identity, from its two appearances. */
  function Verdict(was: Option<Finding>, now: Option<Finding>): Change
    requires was.Some? || now.Some?
  {
    if was.None? then New
    else if now.None? then Resolved
    else ChangeFrom(was.value, now.value)
  }

  function EntryId(e: Entry): string { e.finding.id }

  function EntryIds(es: seq<Entry>): seq<string> { MapSeq(EntryId, es) }

  function Union(baseline: seq<Finding>, current: seq<Finding>): set<string> {
    SetOf(Ids(baseline)) + SetOf(Ids(current))
  }

  lemma EntryOrigin(baseline: seq<Finding>, current: seq<Finding>, e: Entry)
    requires e in Entries(baseline, current)
    ensures (e.finding in current && e == Present(BaseIndex(baseline))(e.finding))
         || (e.finding in baseline && e.finding.id !in Ids(current) && e == Gone(e.finding))
  {
    hide Filter, BaseIndex;
    var es := Entries(baseline, current);
    var gone := Filter(NotAmong(Ids(current)), baseline);
    var k :| 0 <= k < |es| && es[k] == e;
    if k < |current| {
      assert current[k] in current && e == Present(BaseIndex(baseline))(current[k]);
    } else {
      assert e == Gone(gone[k - |current|]) && gone[k - |current|] in gone;
    }
  }

  lemma GoneIds(baseline: seq<Finding>, current: seq<Finding>)
    ensures EntryIds(Entries(baseline, current)) == Ids(current) + Ids(Filter(NotAmong(Ids(current)), baseline))
  {
    hide Filter, BaseIndex;
  }

  /** With unique identities in each run, every identity of either run is placed exactly once, in the class
      its two severities decide. */
  lemma EveryIdentityPlacedOnce(baseline: seq<Finding>, current: seq<Finding>)
    requires DistinctIds(baseline) && DistinctIds(current)
    ensures NoDuplicates(EntryIds(Entries(baseline, current)))
    ensures SetOf(EntryIds(Entries(baseline, current))) == Union(baseline, current)
    ensures forall e :: e in Entries(baseline, current) ==>
              var was, now := Lookup(baseline, e.finding.id), Lookup(current, e.finding.id);
              (was.Some? || now.Some?) && e.change == Verdict(was, now)
  {
    hide Filter, BaseIndex;
    var gone := Filter(NotAmong(Ids(current)), baseline);
    GoneIds(baseline, current);
    FilterKeepsDistinctKeys(Id, NotAmong(Ids(current)), baseline);
    IdsApart(baseline, current);
    forall e | e in Entries(baseline, current)
      ensures var was, now := Lookup(baseline, e.finding.id), Lookup(current, e.finding.id);
              (was.Some? || now.Some?) && e.change == Verdict(was, now) {
      EntryOrigin(baseline, current, e);
      var id := e.finding.id;
      BaseIndexLookup(baseline, id);
      LookupOut(current, id);
      if e.finding in current {
        LookupIn(current, e.finding);
      } else {
        LookupIn(baseline, e.finding);
      }
    }
  }

  lemma IdsApart(baseline: seq<Finding>, current: seq<Finding>)
    requires DistinctIds(current) && DistinctIds(Filter(NotAmong(Ids(current)), baseline))
    ensures var gone := Filter(NotAmong(Ids(current)), baseline);
            && NoDuplicates(Ids(current) + Ids(gone))
            && SetOf(Ids(current) + Ids(gone)) == Union(baseline, current)
  {
    hide Filter;
    var gone := Filter(NotAmong(Ids(current)), baseline);
    forall k | 0 <= k < |gone| ensures Ids(gone)[k] !in Ids(current) && Ids(gone)[k] in Ids(baseline) {
      assert gone[k] in gone;
      var j :| 0 <= j < |baseline| && baseline[j] == gone[k];
      assert Ids(baseline)[j] == gone[k].id;
    }
    forall id | id in Ids(baseline) && id !in Ids(current) ensures id in Ids(gone) {
      var j :| 0 <= j < |baseline| && Ids(baseline)[j] == id;
      assert baseline[j] in gone;
      var k :| 0 <= k < |gone| && gone[k] == baseline[j];
      assert Ids(gone)[k] == id;
    }
  }

  // ----- counts -----

  /** The identities of one class. */
  ghost function ClassIds(baseline: seq<Finding>, current: seq<Finding>, c: Change): set<string> {
    set id | id in Union(baseline, current) && PlacedAs(baseline, current, id, c)
  }

  ghost predicate PlacedAs(baseline: seq<Finding>, current: seq<Finding>, id: string, c: Change) {
    var was, now := Lookup(baseline, id), Lookup(current, id);
    (was.Some? || now.Some?) && Verdict(was, now) == c
  }

  lemma CountIsClassSize(baseline: seq<Finding>, current: seq<Finding>, c: Change)
    requires DistinctIds(baseline) && DistinctIds(current)
    ensures CountChange(Entries(baseline, current), c) == |ClassIds(baseline, current, c)|
  {
    hide Entries, Filter;
    var es := Entries(baseline, current);
    EveryIdentityPlacedOnce(baseline, current);
    var picked := Filter(HasChange(c), es);
    FilterKeepsDistinctKeys(EntryId, HasChange(c), es);
    NoDuplicatesSize(EntryIds(picked));
    var ids := SetOf(EntryIds(picked));
    assert ids == set x | x in EntryIds(picked);
    forall id | id in ids ensures id in ClassIds(baseline, current, c) {
      var k :| 0 <= k < |picked| && EntryIds(picked)[k] == id;
      assert picked[k] in picked;
      EntryIdIn(es, picked[k]);
    }
    forall id | id in ClassIds(baseline, current, c) ensures id in ids {
      assert id in SetOf(EntryIds(es));
      var k :| 0 <= k < |es| && EntryIds(es)[k] == id;
      assert es[k] in es && es[k].finding.id == id;
      EntryIdIn(picked, es[k]);
    }
    assert ids == ClassIds(baseline, current, c);
  }

  lemma EntryIdIn(es: seq<Entry>, e: Entry)
    requires e in es
    ensures e.finding.id in SetOf(EntryIds(es))
  {
    var k :| 0 <= k < |es| && es[k] == e;
    assert EntryIds(es)[k] == e.finding.id;
  }

  /** The five counts add up to the number of identities in either run. */
  lemma CountsCoverTheUnion(baseline: seq<Finding>, current: seq<Finding>)
    requires DistinctIds(baseline) && DistinctIds(current)
    ensures CountChanges(Entries(baseline, current)).Total() == |Union(baseline, current)|
  {
    hide Entries;
    var es := Entries(baseline, current);
    EveryIdentityPlacedOnce(baseline, current);
    NoDuplicatesSize(EntryIds(es));
    assert SetOf(EntryIds(es)) == set x | x in EntryIds(es);
    CountsCoverEntries(es);
  }

  lemma {:induction false} CountsCoverEntries(es: seq<Entry>)
    ensures CountChanges(es).Total() == |es|
  {
    if es != [] {
      SplitLast(es);
      CountsCoverEntries(es[..|es| - 1]);
      CountSnocEntry(es[..|es| - 1], es[|es| - 1]);
      hide CountChanges;
    }
  }

  /** Exchanging the runs exchanges new with resolved and regressed with improved. */
  lemma SwapMirrors(baseline: seq<Finding>, current: seq<Finding>, c: Change)
    requires DistinctIds(baseline) && DistinctIds(current)
    ensures CountChanges(Entries(current, baseline)).Of(c.Mirror()) == CountChanges(Entries(baseline, current)).Of(c)
    ensures forall id :: PlacedAs(current, baseline, id, c.Mirror()) <==> PlacedAs(baseline, current, id, c)
  {
    hide Entries, CountChange;
    CountIsClassSize(baseline, current, c);
    CountIsClassSize(current, baseline, c.Mirror());
    assert ClassIds(baseline, current, c) == ClassIds(current, baseline, c.Mirror());
  }

  // ----- order of the inputs -----

  lemma EntryOrder()
    ensures TotalPreorder(EntryLeq)
    ensures forall a, b :: EntryLeq(a, b) && EntryLeq(b, a) ==> a.finding.id == b.finding.id
  {
    hide StrLeq;
    StrOrder();
  }

  lemma {:induction false} BaseIndexPermutes(a: seq<Finding>, b: seq<Finding>)
    requires DistinctIds(a) && multiset(a) == multiset(b)
    ensures DistinctIds(b) && BaseIndex(a) == BaseIndex(b)
  {
    SameElements(a, b);
    MapPermutes(Id, a, b);
    NoDuplicatesPermutes(Ids(a), Ids(b));
    forall id ensures (id in BaseIndex(a) <==> id in BaseIndex(b)) && (id in BaseIndex(a) ==> BaseIndex(a)[id] == BaseIndex(b)[id]) {
      LookupPermutes(a, b, id);
      BaseIndexLookup(a, id);
      BaseIndexLookup(b, id);
    }
  }

  lemma LookupPermutes(a: seq<Finding>, b: seq<Finding>, id: string)
    requires DistinctIds(a) && DistinctIds(b) && multiset(a) == multiset(b)
    ensures Lookup(a, id) == Lookup(b, id)
  {
    SameElements(a, b);
    LookupOut(a, id);
    LookupOut(b, id);
    if Lookup(a, id).Some? {
      LookupIn(b, Lookup(a, id).value);
    } else if Lookup(b, id).Some? {
      LookupIn(a, Lookup(b, id).value);
    }
  }

  lemma EntriesPermute(baseline: seq<Finding>, current: seq<Finding>, baseline': seq<Finding>, current': seq<Finding>)
    requires DistinctIds(baseline)
    requires multiset(baseline) == multiset(baseline') && multiset(current) == multiset(current')
    ensures multiset(Entries(baseline, current)) == multiset(Entries(baseline', current'))
  {
    hide Filter, MapSeq, BaseIndex;
    BaseIndexPermutes(baseline, baseline');
    MapPermutes(Present(BaseIndex(baseline)), current, current');
    MapPermutes(Id, current, current');
    SameElements(Ids(current), Ids(current'));
    var p, q := NotAmong(Ids(current)), NotAmong(Ids(current'));
    SameFilter(p, q, baseline');
    FilterPermutes(p, baseline, baseline');
    MapPermutes(Gone, Filter(p, baseline), Filter(q, baseline'));
  }

  lemma {:induction false} SameFilter(p: Finding -> bool, q: Finding -> bool, fs: seq<Finding>)
    requires forall f :: p(f) == q(f)
    ensures Filter(p, fs) == Filter(q, fs)
  {
    if fs != [] {
      SameFilter(p, q, fs[..|fs| - 1]);
    }
  }

  lemma CountChangesPermute(a: seq<Entry>, b: seq<Entry>)
    requires multiset(a) == multiset(b)
    ensures CountChanges(a) == CountChanges(b)
  {
    forall c ensures CountChange(a, c) == CountChange(b, c) {
      FilterPermutes(HasChange(c), a, b);
      SameElements(Filter(HasChange(c), a), Filter(HasChange(c), b));
    }
  }

  lemma CountPermutes(a: seq<Finding>, b: seq<Finding>)
    requires multiset(a) == multiset(b)
    ensures Count(a) == Count(b)
  {
    MapPermutes((f: Finding) => f.severity, a, b);
    SameElements(a, b);
  }

  /** Entries that place each identity once come out sorted in one way only. */
  lemma SortedOneWay(es: seq<Entry>, es': seq<Entry>)
    requires NoDuplicates(EntryIds(es)) && multiset(es) == multiset(es')
    ensures SortEntries(es) == SortEntries(es')
  {
    hide EntryLeq, SortBy;
    EntryOrder();
    forall x, y | x in es && y in es && EntryLeq(x, y) && EntryLeq(y, x) ensures x == y {
      var i :| 0 <= i < |es| && es[i] == x;
      var j :| 0 <= j < |es| && es[j] == y;
      assert EntryIds(es)[i] == EntryIds(es)[j];
    }
    SortOfPermutation(EntryLeq, es, es');
  }

  lemma UnchangedPermute(current: seq<Finding>, current': seq<Finding>)
    requires DistinctIds(current) && multiset(current) == multiset(current')
    ensures NoDuplicates(EntryIds(MapSeq(Unchanged, current))) && |current| == |current'|
    ensures multiset(MapSeq(Unchanged, current)) == multiset(MapSeq(Unchanged, current'))
  {
    assert EntryIds(MapSeq(Unchanged, current)) == Ids(current);
    MapPermutes(Unchanged, current, current');
    SameElements(current, current');
  }

  /** The comparison does not depend on the order in which either run lists its findings, with or without a
      baseline. */
  lemma CompareIgnoresOrder(baseline: seq<Finding>, current: seq<Finding>, baseline': seq<Finding>, current': seq<Finding>,
                            baselineId: string, currentId: string, baselineAt: int, currentAt: int)
    requires DistinctIds(baseline) && DistinctIds(current)
    requires multiset(baseline) == multiset(baseline') && multiset(current) == multiset(current')
    ensures CompareRuns(baseline, current, baselineId, currentId, baselineAt, currentAt)
         == CompareRuns(baseline', current', baselineId, currentId, baselineAt, currentAt)
  {
    hide Entries, SortEntries, CountChanges, Count;
    CountPermutes(baseline, baseline');
    CountPermutes(current, current');
    if baselineId == "" {
      UnchangedPermute(current, current');
      SortedOneWay(MapSeq(Unchanged, current), MapSeq(Unchanged, current'));
    } else {
      EntriesPermute(baseline, current, baseline', current');
      CountChangesPermute(Entries(baseline, current), Entries(baseline', current'));
      EveryIdentityPlacedOnce(baseline, current);
      SortedOneWay(Entries(baseline, current), Entries(baseline', current'));
    }
  }
}
