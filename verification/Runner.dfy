/** internal/orchestrator/orchestrator.go: what one run does, as functions of the plan and the answers of
    the adapters. An adapter is whatever it answers at a given call; it does not change what it is shown. */
module Runner {
  import opened Text
  import opened Ordering
  import opened Findings
  import opened Records

  datatype Report = Report(findings: seq<Finding>, error: Option<string>, notes: seq<string>)

  /** `run` takes the number of calls made before, the target, and the findings gathered so far. */
  datatype Adapter = Adapter(
    name: string, kind: string, stage: int, missing: Option<string>, safeFlags: seq<string>,
    run: (nat, string, seq<Finding>) -> Report)

  const SUBPROCESS := "subprocess"

  // ----- the plan -----

  predicate StageLeq(a: Adapter, b: Adapter) { a.stage <= b.stage }

  function Found(names: seq<string>, registry: map<string, Adapter>): seq<Adapter> {
    if names == [] then [] else
      var rest := Found(names[..|names| - 1], registry);
      var n := names[|names| - 1];
      if n in registry then rest + [registry[n]] else rest
  }

  /** The adapters the profile names, in stage order, otherwise as the profile lists them. */
  function Plan(names: seq<string>, registry: map<string, Adapter>): seq<Adapter> {
    SortBy(StageLeq, Found(names, registry))
  }

  /** Why an adapter does not run at all, if it does not. */
  function Why(a: Adapter, tools: bool): Option<string> {
    if a.missing.Some? then a.missing
    else if a.kind == SUBPROCESS && !tools then Some("external tools require a paid licence")
    else None
  }

  // ----- visits -----

  datatype Visit = Skip(adapter: Adapter, why: string) | Execute(adapter: Adapter, target: string)

  function Executions(a: Adapter, targets: seq<string>): seq<Visit> {
    MapSeq((t: string) => Execute(a, t), targets)
  }

  function VisitsOf(a: Adapter, tools: bool, targets: seq<string>): seq<Visit> {
    match Why(a, tools)
    case Some(w) => [Skip(a, w)]
    case None => Executions(a, targets)
  }

  function Visits(plan: seq<Adapter>, tools: bool, targets: seq<string>): seq<Visit> {
    if plan == [] then []
    else Visits(plan[..|plan| - 1], tools, targets) + VisitsOf(plan[|plan| - 1], tools, targets)
  }

  // ----- what a visit leaves behind -----

  datatype Call = Call(adapter: Adapter, target: string, seen: seq<Finding>, report: Report)

  function ValidOf(c: Call): seq<Finding> { Filter(IsValid, c.report.findings) }

  /** The validated findings of the calls, in order. */
  function Gathered(calls: seq<Call>): seq<Finding> {
    if calls == [] then []
    else Gathered(calls[..|calls| - 1]) + ValidOf(calls[|calls| - 1])
  }

  function AppendNote(cur: string, n: string): string {
    if cur == "" then n else cur + "; " + n
  }

  function JoinNotes(notes: seq<string>): string {
    if notes == [] then "" else AppendNote(JoinNotes(notes[..|notes| - 1]), notes[|notes| - 1])
  }

  function SkipRecord(a: Adapter, why: string): AdapterRun {
    AdapterRun(a.name, a.kind, false, 0, true, why, [])
  }

  function RecordOf(a: Adapter, r: Report): AdapterRun {
    AdapterRun(a.name, a.kind, r.error.None?, |r.findings|, false,
               match r.error case Some(e) => e case None => JoinNotes(r.notes), a.safeFlags)
  }

  datatype Trail = Trail(calls: seq<Call>, records: seq<AdapterRun>)

  const NOWHERE := Trail([], [])

  function CallAt(t: Trail, a: Adapter, target: string): Call {
    Call(a, target, Gathered(t.calls), a.run(|t.calls|, target, Gathered(t.calls)))
  }

  function Next(t: Trail, v: Visit): Trail {
    match v
    case Skip(a, why) => t.(records := t.records + [SkipRecord(a, why)])
    case Execute(a, target) =>
      var c := CallAt(t, a, target);
      Trail(t.calls + [c], t.records + [RecordOf(a, c.report)])
  }

  function Follow(visits: seq<Visit>): Trail {
    if visits == [] then NOWHERE else Next(Follow(visits[..|visits| - 1]), visits[|visits| - 1])
  }

  lemma FollowSnoc(visits: seq<Visit>, v: Visit)
    ensures Follow(visits + [v]) == Next(Follow(visits), v)
  {
    hide Next;
    assert (visits + [v])[..|visits|] == visits;
  }

  lemma GatheredSnoc(calls: seq<Call>, c: Call)
    ensures Gathered(calls + [c]) == Gathered(calls) + ValidOf(c)
  {
    assert (calls + [c])[..|calls|] == calls;
  }

  // ----- what a run promises about its calls and records -----

  /** Every call saw exactly the validated findings of all the calls before it. */
  lemma {:induction false} EachSeesAllEarlier(visits: seq<Visit>, k: nat)
    requires k < |Follow(visits).calls|
    ensures var c := Follow(visits).calls;
            c[k].seen == Gathered(c[..k]) && c[k].report == c[k].adapter.run(k, c[k].target, c[k].seen)
  {
    hide Gathered;
    if visits != [] {
      var t := Follow(visits[..|visits| - 1]);
      var c := Follow(visits).calls;
      if k < |t.calls| {
        EachSeesAllEarlier(visits[..|visits| - 1], k);
        assert c[..k] == t.calls[..k];
      } else {
        assert c[..k] == t.calls;
      }
    }
  }

  predicate Answers(r: AdapterRun, v: Visit) {
    r.name == v.adapter.name && r.kind == v.adapter.kind && r.skipped == v.Skip?
    && (v.Skip? ==> r.reason == v.why && r.findings == 0 && !r.ok)
  }

  function Executed(visits: seq<Visit>): seq<Visit> { Filter((v: Visit) => v.Execute?, visits) }

  ghost predicate Made(c: Call, v: Visit) { v.Execute? && c.adapter == v.adapter && c.target == v.target }

  ghost predicate Matches(t: Trail, visits: seq<Visit>) {
    && |t.records| == |visits|
    && (forall i :: 0 <= i < |visits| ==> Answers(t.records[i], visits[i]))
    && |t.calls| == |Executed(visits)|
    && (forall i :: 0 <= i < |t.calls| ==> Made(t.calls[i], Executed(visits)[i]))
  }

  lemma MatchesSnoc(t: Trail, visits: seq<Visit>, v: Visit)
    requires Matches(t, visits)
    ensures Matches(Next(t, v), visits + [v])
  {
    hide Gathered, JoinNotes, Filter;
    FilterStep((v: Visit) => v.Execute?, visits, v);
  }

  /** One record for each visit, in order, and one call for each executed visit, in order. */
  lemma {:induction false} RecordsAndCallsMatch(visits: seq<Visit>)
    ensures Matches(Follow(visits), visits)
  {
    hide Next, Answers, Made;
    if visits != [] {
      var n := |visits| - 1;
      RecordsAndCallsMatch(visits[..n]);
      SplitLast(visits);
      MatchesSnoc(Follow(visits[..n]), visits[..n], visits[n]);
    }
  }

  ghost predicate StagesAscend(visits: seq<Visit>) {
    forall i, j :: 0 <= i < j < |visits| ==> visits[i].adapter.stage <= visits[j].adapter.stage
  }

  lemma {:induction false} VisitsAscend(plan: seq<Adapter>, tools: bool, targets: seq<string>)
    requires Sorted(StageLeq, plan)
    ensures StagesAscend(Visits(plan, tools, targets))
    ensures forall v :: v in Visits(plan, tools, targets) ==> v.adapter in plan
  {
    if plan != [] {
      var n := |plan| - 1;
      SplitLast(plan);
      VisitsAscend(plan[..n], tools, targets);
      var init, last := Visits(plan[..n], tools, targets), VisitsOf(plan[n], tools, targets);
      assert forall v :: v in last ==> v.adapter == plan[n];
      forall i, j | 0 <= i < j < |init + last| ensures (init + last)[i].adapter.stage <= (init + last)[j].adapter.stage {
        if i < |init| <= j {
          assert init[i] in init;
          var k :| 0 <= k < n && plan[..n][k] == init[i].adapter;
          assert StageLeq(plan[k], plan[n]);
        }
      }
    }
  }

  lemma {:induction false} FilterAscends(visits: seq<Visit>)
    requires StagesAscend(visits)
    ensures StagesAscend(Executed(visits))
  {
    hide Filter;
    if visits != [] {
      var n := |visits| - 1;
      SplitLast(visits);
      FilterAscends(visits[..n]);
      FilterStep((v: Visit) => v.Execute?, visits[..n], visits[n]);
      var e := Executed(visits[..n]);
      forall i | 0 <= i < |e| ensures e[i].adapter.stage <= visits[n].adapter.stage {
        assert e[i] in visits[..n];
        var k :| 0 <= k < n && visits[..n][k] == e[i];
      }
    }
  }

  /** Adapters are called stage by stage, in whole runs and in those cut short. */
  lemma CallsInStageOrder(names: seq<string>, registry: map<string, Adapter>, tools: bool, targets: seq<string>,
                          visits: seq<Visit>, i: nat, j: nat)
    requires visits <= Visits(Plan(names, registry), tools, targets)
    requires i < j < |Follow(visits).calls|
    ensures var c := Follow(visits).calls; c[i].adapter.stage <= c[j].adapter.stage
  {
    hide Follow, Visits, SortBy, Found;
    var all := Visits(Plan(names, registry), tools, targets);
    SortBySorted(StageLeq, Found(names, registry));
    VisitsAscend(Plan(names, registry), tools, targets);
    assert StagesAscend(visits) by {
      assert forall k :: 0 <= k < |visits| ==> visits[k] == all[k];
    }
    FilterAscends(visits);
    RecordsAndCallsMatch(visits);
  }

  /** Which adapter and target a record is about; skipped adapters have no target. */
  datatype Label = Label(name: string, target: Option<string>)

  function LabelOf(v: Visit): Label {
    Label(v.adapter.name, if v.Skip? then None else Some(v.target))
  }

  function Labels(visits: seq<Visit>): seq<Label> { MapSeq(LabelOf, visits) }

  function NameOf(a: Adapter): string { a.name }

  /** The labels a plan calls for: one for a skipped adapter, one per target for any other. */
  ghost predicate Called(plan: seq<Adapter>, tools: bool, targets: seq<string>, l: Label) {
    exists a :: a in plan && l.name == a.name
                && if Why(a, tools).Some? then l.target == None else l.target.Some? && l.target.value in targets
  }

  lemma VisitsOfLabels(a: Adapter, tools: bool, targets: seq<string>)
    requires NoDuplicates(targets)
    ensures var ls := Labels(VisitsOf(a, tools, targets));
            NoDuplicates(ls) && forall l :: l in ls <==> Called([a], tools, targets, l)
  {
    var ls := Labels(VisitsOf(a, tools, targets));
    assert a in [a];
    if Why(a, tools).None? {
      assert forall i :: 0 <= i < |targets| ==> ls[i] == Label(a.name, Some(targets[i]));
      forall l | Called([a], tools, targets, l) ensures l in ls {
        var i :| 0 <= i < |targets| && targets[i] == l.target.value;
        assert ls[i] == l;
      }
    } else {
      assert ls[0] == Label(a.name, None);
    }
  }

  /** Each skipped adapter leaves one record and each executed pair leaves one: when the plan names no adapter
      twice and no target is repeated, the labels of the records are exactly the ones called for, once each. */
  lemma {:induction false} EveryPairOnce(plan: seq<Adapter>, tools: bool, targets: seq<string>)
    requires NoDuplicates(MapSeq(NameOf, plan)) && NoDuplicates(targets)
    ensures var ls := Labels(Visits(plan, tools, targets));
            NoDuplicates(ls) && forall l :: l in ls <==> Called(plan, tools, targets, l)
  {
    hide VisitsOf, Why;
    if plan != [] {
      var n := |plan| - 1;
      SplitLast(plan);
      assert MapSeq(NameOf, plan[..n]) == MapSeq(NameOf, plan)[..n];
      EveryPairOnce(plan[..n], tools, targets);
      VisitsOfLabels(plan[n], tools, targets);
      LastNameIsNew(plan);
      var a, b := Labels(Visits(plan[..n], tools, targets)), Labels(VisitsOf(plan[n], tools, targets));
      assert Labels(Visits(plan, tools, targets)) == a + b;
      assert forall l :: Called(plan, tools, targets, l)
                         <==> Called(plan[..n], tools, targets, l) || Called([plan[n]], tools, targets, l);
      assert forall l :: Called(plan[..n], tools, targets, l) && Called([plan[n]], tools, targets, l) ==> false;
      hide Visits, Labels, Called;
      ApartTogether(a, b);
    }
  }

  lemma ApartTogether(a: seq<Label>, b: seq<Label>)
    requires NoDuplicates(a) && NoDuplicates(b) && forall l :: !(l in a && l in b)
    ensures NoDuplicates(a + b)
  {
    forall i, j | 0 <= i < j < |a + b| ensures (a + b)[i] != (a + b)[j] {
      assert i < |a| ==> a[i] in a;
      assert j >= |a| ==> b[j - |a|] in b;
    }
  }

  lemma LastNameIsNew(plan: seq<Adapter>)
    requires plan != [] && NoDuplicates(MapSeq(NameOf, plan))
    ensures forall a :: a in plan[..|plan| - 1] ==> a.name != plan[|plan| - 1].name
  {
    var n := |plan| - 1;
    var names := MapSeq(NameOf, plan);
    forall a | a in plan[..n] ensures a.name != plan[n].name {
      var k :| 0 <= k < n && plan[..n][k] == a;
      assert names[k] != names[n];
    }
  }
}
