/** internal/orchestrator/orchestrator.go: which adapters a run visits, which it skips and why, and what a call leaves in the
    job record. */
module RunnerMeaning {
  import opened Text
  import opened Ordering
  import opened Findings
  import opened Records
  import opened Runner

  // ----- the plan -----

  lemma {:induction false} FoundMean(names: seq<string>, registry: map<string, Adapter>)
    ensures forall a :: a in Found(names, registry) <==> exists n :: n in names && n in registry && registry[n] == a
    ensures |Found(names, registry)| == |Filter((n: string) => n in registry, names)|
  {
    if names != [] {
      SplitLast(names);
      FoundMean(names[..|names| - 1], registry);
      FilterStep((n: string) => n in registry, names[..|names| - 1], names[|names| - 1]);
    }
  }

  /** The plan holds the registered adapters of the profile, one for each time it names one, lower stages first. */
  lemma PlanMeans(names: seq<string>, registry: map<string, Adapter>)
    ensures var plan := Plan(names, registry);
            && (forall a :: a in plan <==> exists n :: n in names && n in registry && registry[n] == a)
            && |plan| == |Filter((n: string) => n in registry, names)|
            && forall i, j :: 0 <= i < j < |plan| ==> plan[i].stage <= plan[j].stage
  {
    hide Found, SortBy;
    FoundMean(names, registry);
    var plan := Plan(names, registry);
    SameElements(plan, Found(names, registry));
    SortBySorted(StageLeq, Found(names, registry));
    forall i, j | 0 <= i < j < |plan| ensures plan[i].stage <= plan[j].stage {
      assert StageLeq(plan[i], plan[j]);
    }
  }

  // ----- the visits -----

  /** An adapter that can run: nothing it needs is missing, and external tools need a licence. */
  predicate Runs(a: Adapter, tools: bool) { a.missing.None? && (a.kind == "subprocess" ==> tools) }

  /** Each adapter that can run visits every target; each other one leaves one mark that says what is missing. */
  lemma {:induction false} VisitsMean(plan: seq<Adapter>, tools: bool, targets: seq<string>, v: Visit)
    ensures v in Visits(plan, tools, targets) <==>
            && v.adapter in plan
            && if v.Execute? then Runs(v.adapter, tools) && v.target in targets
               else !Runs(v.adapter, tools)
                    && v.why == if v.adapter.missing.Some? then v.adapter.missing.value else "external tools require a paid licence"
  {
    if plan != [] {
      var n := |plan| - 1;
      SplitLast(plan);
      VisitsMean(plan[..n], tools, targets, v);
      VisitsOfMean(plan[n], tools, targets, v);
      hide VisitsOf, Runs, Why;
    }
  }

  lemma VisitsOfMean(a: Adapter, tools: bool, targets: seq<string>, v: Visit)
    ensures v in VisitsOf(a, tools, targets) <==>
            && v.adapter == a
            && if v.Execute? then Runs(a, tools) && v.target in targets
               else !Runs(a, tools) && v.why == if a.missing.Some? then a.missing.value else "external tools require a paid licence"
  {
    if Runs(a, tools) {
      var es := Executions(a, targets);
      if v.Execute? && v.adapter == a && v.target in targets {
        var i :| 0 <= i < |targets| && targets[i] == v.target;
        assert es[i] == v;
      }
      if v in es {
        var i :| 0 <= i < |es| && es[i] == v;
        assert targets[i] in targets;
      }
    }
  }

  // ----- the records -----

  /** What the job record says about one call. */
  predicate Reports(rec: AdapterRun, c: Call) {
    && rec.name == c.adapter.name && rec.kind == c.adapter.kind && rec.safeFlags == c.adapter.safeFlags && !rec.skipped
    && rec.ok == c.report.error.None? && rec.findings == |c.report.findings|
    && (c.report.error.Some? ==> rec.reason == c.report.error.value)
    && (c.report.error.None? && c.report.notes == [] ==> rec.reason == "")
    && (c.report.error.None? && |c.report.notes| == 1 ==> rec.reason == c.report.notes[0])
    && (c.report.error.None? && |c.report.notes| == 2 && c.report.notes[0] != "" ==>
         rec.reason == c.report.notes[0] + "; " + c.report.notes[1])
  }

  function Ran(rec: AdapterRun): bool { !rec.skipped }

  lemma RecordReports(c: Call)
    ensures Reports(RecordOf(c.adapter, c.report), c)
  {
    var notes := c.report.notes;
    if |notes| == 1 {
      OneNote(notes);
    }
    if |notes| == 2 {
      OneNote(notes[..1]);
    }
  }

  lemma OneNote(notes: seq<string>)
    requires |notes| == 1
    ensures JoinNotes(notes) == notes[0]
  {
    assert notes[..0] == [];
    assert JoinNotes(notes[..0]) == "";
  }

  /** Of the records of a run, those that are not skips tell of its calls, one by one and in order. */
  lemma {:induction false} RecordsMean(visits: seq<Visit>)
    ensures var t := Follow(visits);
            var ran := Filter(Ran, t.records);
            |ran| == |t.calls| && forall i :: 0 <= i < |ran| ==> Reports(ran[i], t.calls[i])
  {
    hide Reports, Gathered, RecordOf;
    if visits != [] {
      var n := |visits| - 1;
      var t := Follow(visits[..n]);
      RecordsMean(visits[..n]);
      match visits[n]
      case Skip(a, why) =>
        FilterStep(Ran, t.records, SkipRecord(a, why));
      case Execute(a, target) =>
        var c := CallAt(t, a, target);
        FilterStep(Ran, t.records, RecordOf(a, c.report));
        RecordReports(c);
        assert Ran(RecordOf(a, c.report)) by { RecordRan(a, c.report); }
      hide Filter;
    }
  }

  lemma RecordRan(a: Adapter, r: Report)
    ensures Ran(RecordOf(a, r))
  {
  }
}
