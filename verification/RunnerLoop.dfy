/** internal/orchestrator/orchestrator.go: submitting a job and the loop that executes it. Writes of the job
    record are kept in `saves`, newest last; their errors are ignored, as in the source. */
module RunnerLoop {
  import opened Text
  import opened Ordering
  import opened Findings
  import opened Records
  import opened Correlate
  import opened Ranking
  import opened Runner

  // ----- progress -----

  function Percent(done: nat, total: int): (p: int)
    ensures 0 <= p
    ensures total > 0 ==> p <= 99
  {
    if total <= 0 then 100
    else
      assert done * 100 / total >= 0;
      if done * 100 / total > 99 then 99 else done * 100 / total
  }

  lemma MulMonotone(x: int, y: int, t: int)
    requires x <= y && t > 0
    ensures t * x <= t * y
  {
  }

  lemma DivMonotone(a: nat, b: nat, t: int)
    requires a <= b && t > 0
    ensures a / t <= b / t
  {
    assert a == t * (a / t) + a % t && b == t * (b / t) + b % t;
    if a / t > b / t {
      MulMonotone(b / t + 1, a / t, t);
    }
  }

  /** The whole percentage of the work done, rounded down, and 99 for anything above. */
  lemma PercentIsFloor(done: nat, total: int)
    requires total > 0
    ensures var p := Percent(done, total);
            && total * p <= done * 100
            && (p < 99 ==> done * 100 < total * (p + 1))
  {
    var q := done * 100 / total;
    assert done * 100 == total * q + done * 100 % total;
    MulMonotone(Percent(done, total), q, total);
  }

  lemma PercentMonotone(a: nat, b: nat, total: int)
    requires a <= b
    ensures Percent(a, total) <= Percent(b, total)
  {
    if total > 0 {
      DivMonotone(a * 100, b * 100, total);
    }
  }

  // ----- what is written while the run is going on -----

  predicate Going(j: Job) { j.state == Running && 0 <= j.progress <= 99 }

  /** Writes of a run that has not ended: never a terminal state, never 100, never backwards. */
  ghost predicate Interim(saves: seq<Job>) {
    (forall i :: 0 <= i < |saves| ==> Going(saves[i]))
    && forall i, j :: 0 <= i < j < |saves| ==> saves[i].progress <= saves[j].progress
  }

  ghost predicate UpTo(saves: seq<Job>, j: Job) {
    Interim(saves) && Going(j) && forall i :: 0 <= i < |saves| ==> saves[i].progress <= j.progress
  }

  lemma SaveGoing(saves: seq<Job>, j: Job)
    requires UpTo(saves, j)
    ensures UpTo(saves + [j], j)
  {
  }

  /** The whole series: interim writes, then one terminal write at 100. */
  ghost predicate EndsOnce(saves: seq<Job>) {
    saves != [] && Interim(saves[..|saves| - 1])
    && saves[|saves| - 1].state.Terminal() && saves[|saves| - 1].progress == 100
  }

  lemma SaveLast(saves: seq<Job>, j: Job)
    requires Interim(saves) && j.state.Terminal() && j.progress == 100
    ensures EndsOnce(saves + [j])
  {
    assert (saves + [j])[..|saves|] == saves;
  }

  /** From the first write to the last, progress never goes back and 100 is seen once, at the end. */
  lemma ProgressNeverGoesBack(saves: seq<Job>, i: nat, j: nat)
    requires EndsOnce(saves) && i <= j < |saves|
    ensures saves[i].progress <= saves[j].progress
    ensures saves[i].progress == 100 <==> i == |saves| - 1
    ensures saves[i].state.Terminal() <==> i == |saves| - 1
  {
    var init := saves[..|saves| - 1];
    if i < |saves| - 1 {
      assert Going(init[i]);
      if j < |saves| - 1 && i < j {
        assert init[i].progress <= init[j].progress;
      }
    }
  }

  // ----- per-target counts -----

  function CountFor(calls: seq<Call>, t: string): nat {
    if calls == [] then 0
    else CountFor(calls[..|calls| - 1], t) + if calls[|calls| - 1].target == t then |ValidOf(calls[|calls| - 1])| else 0
  }

  lemma CountSnocCall(calls: seq<Call>, c: Call, t: string)
    ensures CountFor(calls + [c], t) == CountFor(calls, t) + if c.target == t then |ValidOf(c)| else 0
  {
    assert (calls + [c])[..|calls|] == calls;
  }

  /** A target that produced nothing has no entry. */
  ghost predicate Tallied(perTarget: map<string, nat>, calls: seq<Call>) {
    forall t: string :: if t in perTarget then perTarget[t] == CountFor(calls, t) > 0 else CountFor(calls, t) == 0
  }

  function Settle(o: TargetOutcome, perTarget: map<string, nat>): TargetOutcome {
    if o.target in perTarget then o.(processed := true, findings := perTarget[o.target])
    else if o.inScope then o.(processed := true)
    else o
  }

  function SettleAll(os: seq<TargetOutcome>, perTarget: map<string, nat>): (r: seq<TargetOutcome>)
    ensures |r| == |os|
    ensures forall i :: 0 <= i < |os| ==> r[i] == Settle(os[i], perTarget)
  {
    MapSeq((o: TargetOutcome) => Settle(o, perTarget), os)
  }

  function FindingsIn(os: seq<TargetOutcome>): nat {
    if os == [] then 0 else FindingsIn(os[..|os| - 1]) + os[|os| - 1].findings
  }

  function TargetName(o: TargetOutcome): string { o.target }

  function TargetNames(os: seq<TargetOutcome>): seq<string> { MapSeq(TargetName, os) }

  /** What submitting a job writes into its targets: each target once, nothing found yet, the accepted ones
      (which are the targets of the run) in scope. */
  ghost predicate Submitted(os: seq<TargetOutcome>, targets: seq<string>) {
    NoDuplicates(TargetNames(os)) && (forall o :: o in os ==> o.findings == 0 && !o.processed)
    && (forall o :: o in os ==> (o.inScope <==> o.target in targets))
    && forall t :: t in targets ==> t in TargetNames(os)
  }

  /** The sum over the outcomes of what the calls found for each. */
  function SumOver(os: seq<TargetOutcome>, calls: seq<Call>): nat {
    if os == [] then 0 else SumOver(os[..|os| - 1], calls) + CountFor(calls, os[|os| - 1].target)
  }

  lemma {:induction false} SumOverSnoc(os: seq<TargetOutcome>, calls: seq<Call>, c: Call)
    requires NoDuplicates(TargetNames(os))
    ensures SumOver(os, calls + [c]) == SumOver(os, calls) + if c.target in TargetNames(os) then |ValidOf(c)| else 0
  {
    hide CountFor, ValidOf;
    if os != [] {
      var n := |os| - 1;
      var names := TargetNames(os);
      assert TargetNames(os[..n]) == names[..n];
      SplitLast(names);
      SumOverSnoc(os[..n], calls, c);
      CountSnocCall(calls, c, os[n].target);
      assert names[n] == os[n].target;
    }
  }

  lemma {:induction false} SumOverNone(os: seq<TargetOutcome>)
    ensures SumOver(os, []) == 0
  {
    if os != [] {
      SumOverNone(os[..|os| - 1]);
    }
  }

  lemma {:induction false} SumIsGathered(os: seq<TargetOutcome>, calls: seq<Call>)
    requires NoDuplicates(TargetNames(os))
    requires forall c :: c in calls ==> c.target in TargetNames(os)
    ensures SumOver(os, calls) == |Gathered(calls)|
  {
    hide ValidOf;
    if calls == [] {
      SumOverNone(os);
    } else {
      var n := |calls| - 1;
      SplitLast(calls);
      SumIsGathered(os, calls[..n]);
      SumOverSnoc(os, calls[..n], calls[n]);
    }
  }

  lemma {:induction false} SettledSum(os: seq<TargetOutcome>, perTarget: map<string, nat>, calls: seq<Call>)
    requires Tallied(perTarget, calls) && forall o :: o in os ==> o.findings == 0
    ensures FindingsIn(SettleAll(os, perTarget)) == SumOver(os, calls)
  {
    hide CountFor;
    if os != [] {
      var n := |os| - 1;
      SettledSum(os[..n], perTarget, calls);
      var s := SettleAll(os, perTarget);
      assert s[..n] == SettleAll(os[..n], perTarget);
      assert os[n] in os;
    }
  }

  function AimedAt(t: string): Call -> bool { (c: Call) => c.target == t }

  lemma {:induction false} CountIsGathered(calls: seq<Call>, t: string)
    ensures CountFor(calls, t) == |Gathered(Filter(AimedAt(t), calls))|
  {
    hide ValidOf;
    if calls == [] {
      FilterNone(AimedAt(t), calls);
    } else {
      var n := |calls| - 1;
      SplitLast(calls);
      CountIsGathered(calls[..n], t);
      FilterStep(AimedAt(t), calls[..n], calls[n]);
      if calls[n].target == t {
        GatheredSnoc(Filter(AimedAt(t), calls[..n]), calls[n]);
      }
    }
  }

  /** What a target is left with: the accepted ones are processed, and each has the number of valid findings of
      the calls made for it. */
  ghost predicate Settled(after: TargetOutcome, before: TargetOutcome, calls: seq<Call>) {
    after == before.(processed := before.inScope, findings := |Gathered(Filter(AimedAt(before.target), calls))|)
  }

  lemma OutcomesSettled(os: seq<TargetOutcome>, targets: seq<string>, perTarget: map<string, nat>, calls: seq<Call>, i: nat)
    requires Submitted(os, targets) && Tallied(perTarget, calls) && i < |os|
    requires forall c :: c in calls ==> c.target in targets
    ensures Settled(SettleAll(os, perTarget)[i], os[i], calls)
  {
    var t := os[i].target;
    assert os[i] in os;
    hide CountFor, Gathered, Submitted;
    CountIsGathered(calls, t);
    if !os[i].inScope {
      FilterNone(AimedAt(t), calls);
      assert Gathered([]) == [] by { NothingGathered(); }
      assert t !in perTarget;
    }
  }

  lemma NothingGathered()
    ensures Gathered([]) == []
  {
  }

  /** The per-target counts add up to the findings reported plus the duplicates merged away. */
  lemma CountsAddUp(os: seq<TargetOutcome>, targets: seq<string>, perTarget: map<string, nat>, calls: seq<Call>)
    requires Submitted(os, targets) && Tallied(perTarget, calls)
    requires forall c :: c in calls ==> c.target in targets
    ensures FindingsIn(SettleAll(os, perTarget)) == |Gathered(calls)|
  {
    hide CountFor, SumOver, Gathered;
    SettledSum(os, perTarget, calls);
    SumIsGathered(os, calls);
  }

  // ----- the loop -----

  method SelectAdapters(names: seq<string>, registry: map<string, Adapter>) returns (plan: seq<Adapter>)
    ensures plan == Plan(names, registry)
  {
    plan := [];
    for i := 0 to |names|
      invariant plan == Found(names[..i], registry)
    {
      assert names[..i + 1][..i] == names[..i];
      if names[i] !in registry {
        continue;
      }
      plan := plan + [registry[names[i]]];
    }
    assert names[..|names|] == names;
    plan := SortBy(StageLeq, plan);
  }

  function Bumped(m: map<string, nat>, t: string, n: nat): map<string, nat> {
    if n == 0 then m else m[t := (if t in m then m[t] else 0) + n]
  }

  lemma BumpedTallied(m: map<string, nat>, calls: seq<Call>, c: Call)
    requires Tallied(m, calls)
    ensures Tallied(Bumped(m, c.target, |ValidOf(c)|), calls + [c])
  {
    hide CountFor, ValidOf;
    var m' := Bumped(m, c.target, |ValidOf(c)|);
    forall t: string ensures if t in m' then m'[t] == CountFor(calls + [c], t) > 0 else CountFor(calls + [c], t) == 0 {
      CountSnocCall(calls, c, t);
    }
  }

  const REJECTED := "one finding was rejected as malformed: "

  /** The reason of a record after a note for each finding that fails validation. */
  function WithRejections(reason: string, fs: seq<Finding>): string {
    if fs == [] then reason
    else
      var sofar := WithRejections(reason, fs[..|fs| - 1]);
      var fault := Validate(fs[|fs| - 1]);
      if fault.Some? then AppendNote(sofar, REJECTED + FaultText(fault.value)) else sofar
  }

  lemma {:induction false} RejectionsGrow(reason: string, fs: seq<Finding>)
    ensures |reason| <= |WithRejections(reason, fs)|
    ensures |reason| < |WithRejections(reason, fs)| || forall f :: f in fs ==> IsValid(f)
  {
    hide Validate;
    if fs != [] {
      var n := |fs| - 1;
      SplitLast(fs);
      RejectionsGrow(reason, fs[..n]);
      assert |REJECTED| > 0;
      assert Validate(fs[n]).None? || |WithRejections(reason, fs)| > |WithRejections(reason, fs[..n])|;
      if |reason| == |WithRejections(reason, fs)| {
        forall f | f in fs ensures IsValid(f) {
          assert f in fs[..n] || f == fs[n];
        }
      }
    }
  }

  lemma {:induction false} NoRejections(reason: string, fs: seq<Finding>)
    requires forall f :: f in fs ==> IsValid(f)
    ensures WithRejections(reason, fs) == reason
  {
    hide Validate;
    if fs != [] {
      SplitLast(fs);
      NoRejections(reason, fs[..|fs| - 1]);
      assert IsValid(fs[|fs| - 1]);
    }
  }

  /** The record that was kept says all there is to say about a call exactly when no finding was rejected: the
      notes about rejections go to the local record after its copy was appended. */
  lemma NotesAreLostExactlyWhen(rec: AdapterRun, fs: seq<Finding>)
    ensures rec.(reason := WithRejections(rec.reason, fs)) == rec <==> forall f :: f in fs ==> IsValid(f)
  {
    hide Validate, WithRejections, IsValid;
    RejectionsGrow(rec.reason, fs);
    if forall f :: f in fs ==> IsValid(f) {
      NoRejections(rec.reason, fs);
    }
  }

  lemma NothingSifted(reason: string)
    ensures WithRejections(reason, []) == reason
  {
  }

  lemma OneSifted(reason: string, fs: seq<Finding>, f: Finding)
    ensures WithRejections(reason, fs + [f]) ==
            match Validate(f)
            case Some(fault) => AppendNote(WithRejections(reason, fs), REJECTED + FaultText(fault))
            case None => WithRejections(reason, fs)
    ensures IsValid(f) <==> Validate(f).None?
  {
    hide Validate, AppendNote, FaultText;
    assert (fs + [f])[..|fs|] == fs;
  }

  /** Sifts the findings of one call: the valid ones are collected and counted for the target, each other one is
      noted in the local record `rec`. */
  method Sift(rec: AdapterRun, collected: seq<Finding>, perTarget: map<string, nat>, target: string, fs: seq<Finding>)
    returns (rec': AdapterRun, collected': seq<Finding>, perTarget': map<string, nat>)
    ensures rec' == rec.(reason := WithRejections(rec.reason, fs))
    ensures collected' == collected + Filter(IsValid, fs)
    ensures perTarget' == Bumped(perTarget, target, |Filter(IsValid, fs)|)
  {
    hide Validate, Filter, FaultText, WithRejections, IsValid, AppendNote;
    NothingSifted(rec.reason);
    rec', collected', perTarget' := rec, collected, perTarget;
    assert fs[..0] == [];
    FilterNone(IsValid, []);
    for i := 0 to |fs|
      invariant rec' == rec.(reason := WithRejections(rec.reason, fs[..i]))
      invariant collected' == collected + Filter(IsValid, fs[..i])
      invariant perTarget' == Bumped(perTarget, target, |Filter(IsValid, fs[..i])|)
    {
      TakeNext(fs, i);
      FilterStep(IsValid, fs[..i], fs[i]);
      OneSifted(rec.reason, fs[..i], fs[i]);
      var fault := Validate(fs[i]);
      if fault.Some? {
        rec' := rec'.(reason := AppendNote(rec'.reason, REJECTED + FaultText(fault.value)));
        continue;
      }
      ConcatAssociative(collected, Filter(IsValid, fs[..i]), [fs[i]]);
      collected' := collected' + [fs[i]];
      perTarget' := perTarget'[target := (if target in perTarget' then perTarget'[target] else 0) + 1];
    }
    assert fs[..|fs|] == fs;
  }

  /** The record of a call, as it is built from what the adapter answered. */
  method RecordCall(a: Adapter, report: Report) returns (rec: AdapterRun)
    ensures rec == RecordOf(a, report)
  {
    hide JoinNotes;
    rec := AdapterRun(a.name, a.kind, report.error.None?, |report.findings|, false, "", []);
    rec := rec.(safeFlags := a.safeFlags);
    if report.error.Some? {
      rec := rec.(reason := report.error.value);
    } else if |report.notes| > 0 {
      rec := rec.(reason := JoinNotes(report.notes));
    } else {
      assert JoinNotes(report.notes) == "" by { NoNotes(report.notes); }
    }
  }

  lemma NoNotes(notes: seq<string>)
    requires notes == []
    ensures JoinNotes(notes) == ""
  {
  }

  datatype Limits = Limits(tools: bool, maxShown: int)

  /** The state of the loop: what is collected, counted and recorded agrees with the visits made. */
  ghost predicate InStep(queued: Job, job: Job, saves: seq<Job>, collected: seq<Finding>, perTarget: map<string, nat>,
                         trail: Trail, targets: seq<string>)
  {
    && saves != [] && UpTo(saves, job)
    && job == queued.(phase := job.phase, adapters := job.adapters, progress := job.progress)
    && job.adapters == queued.adapters + trail.records
    && collected == Gathered(trail.calls)
    && Tallied(perTarget, trail.calls)
    && (forall c :: c in trail.calls ==> c.target in targets)
  }

  /** One pair: the phase is written, the adapter called, a copy of its record kept, its findings sifted. `noted`
      is the local record at the end, which nobody reads. */
  method VisitPair(ghost queued: Job, job: Job, saves: seq<Job>, collected: seq<Finding>, perTarget: map<string, nat>,
                   ghost trail: Trail, a: Adapter, targets: seq<string>, target: string, calls: nat, done: nat, steps: int)
    returns (job': Job, saves': seq<Job>, collected': seq<Finding>, perTarget': map<string, nat>, noted: AdapterRun)
    requires InStep(queued, job, saves, collected, perTarget, trail, targets)
    requires target in targets && calls == |trail.calls| && steps > 0
    requires job.progress == Percent(done, steps)
    ensures InStep(queued, job', saves', collected', perTarget', Next(trail, Execute(a, target)), targets)
    ensures job'.progress == Percent(done + 1, steps)
    ensures saves <= saves'
    ensures var report := a.run(calls, target, collected);
            var kept := RecordOf(a, report);
            job'.adapters == job.adapters + [kept] && noted == kept.(reason := WithRejections(kept.reason, report.findings))
  {
    hide Tallied, Gathered, RecordOf, Percent, Bumped, Filter, IsValid;
    job' := job.(phase := a.name + " · " + target);
    saves' := saves + [job'];
    SaveGoing(saves, job');
    var report := a.run(calls, target, collected);
    var rec := RecordCall(a, report);
    job' := job'.(adapters := job'.adapters + [rec]);
    noted, collected', perTarget' := Sift(rec, collected, perTarget, target, report.findings);
    GatheredSnoc(trail.calls, Call(a, target, collected, report));
    BumpedTallied(perTarget, trail.calls, Call(a, target, collected, report));
    PercentMonotone(done, done + 1, steps);
    job' := job'.(progress := Percent(done + 1, steps));
    assert UpTo(saves', job');
    SaveGoing(saves', job');
    saves' := saves' + [job'];
    ConcatAssociative(queued.adapters, trail.records, [RecordOf(a, report)]);
  }

  /** An adapter that cannot run leaves its record and its share of the progress. */
  method SkipAdapter(ghost queued: Job, job: Job, saves: seq<Job>, ghost collected: seq<Finding>, ghost perTarget: map<string, nat>,
                     ghost trail: Trail, a: Adapter, why: string, targets: seq<string>, done: nat, steps: int)
    returns (job': Job, saves': seq<Job>)
    requires InStep(queued, job, saves, collected, perTarget, trail, targets) && steps > 0
    requires job.progress == Percent(done, steps)
    ensures InStep(queued, job', saves', collected, perTarget, Next(trail, Skip(a, why)), targets)
    ensures job'.progress == Percent(done + |targets|, steps)
    ensures saves <= saves'
  {
    hide Tallied, Gathered, Percent;
    job' := job.(adapters := job.adapters + [SkipRecord(a, why)]);
    PercentMonotone(done, done + |targets|, steps);
    job' := job'.(progress := Percent(done + |targets|, steps));
    assert UpTo(saves, job');
    SaveGoing(saves, job');
    saves' := saves + [job'];
    ConcatAssociative(queued.adapters, trail.records, [SkipRecord(a, why)]);
  }

  /** All targets of one adapter, in order, unless the run is cancelled first. */
  method ExecuteAdapter(ghost queued: Job, job: Job, saves: seq<Job>, collected: seq<Finding>, perTarget: map<string, nat>,
                        ghost visits: seq<Visit>, a: Adapter, targets: seq<string>, calls: nat, done: nat, steps: int,
                        cancelled: nat -> bool)
    returns (job': Job, saves': seq<Job>, collected': seq<Finding>, perTarget': map<string, nat>,
             calls': nat, done': nat, stopped: bool, ghost visits': seq<Visit>)
    requires InStep(queued, job, saves, collected, perTarget, Follow(visits), targets)
    requires calls == |Follow(visits).calls| && steps > 0 && job.progress == Percent(done, steps)
    ensures InStep(queued, job', saves', collected', perTarget', Follow(visits'), targets)
    ensures calls' == |Follow(visits').calls| && job'.progress == Percent(done', steps)
    ensures !stopped ==> visits' == visits + Executions(a, targets)
    ensures stopped ==> cancelled(done') && done <= done' < done + |targets|
                        && visits' == visits + Executions(a, targets)[..done' - done]
  {
    hide InStep, Percent, Executions, Follow, RecordOf, WithRejections;
    job', saves', collected', perTarget', calls', done', stopped := job, saves, collected, perTarget, calls, done, false;
    visits' := visits + [];
    assert visits' == visits;
    ghost var es := Executions(a, targets);
    assert |es| == |targets| && (forall i :: 0 <= i < |es| ==> es[i] == Execute(a, targets[i])) by { ExecutionsAt(a, targets); }
    assert es[..0] == [];
    for j := 0 to |targets|
      invariant done' == done + j
      invariant InStep(queued, job', saves', collected', perTarget', Follow(visits'), targets)
      invariant calls' == |Follow(visits').calls| && job'.progress == Percent(done', steps)
      invariant visits' == visits + es[..j]
    {
      if cancelled(done') {
        stopped := true;
        return;
      }
      var unread;
      job', saves', collected', perTarget', unread :=
        VisitPair(queued, job', saves', collected', perTarget', Follow(visits'), a, targets, targets[j], calls', done', steps);
      FollowSnoc(visits', es[j]);
      TakeNext(es, j);
      ConcatAssociative(visits, es[..j], [es[j]]);
      visits' := visits' + [es[j]];
      calls' := calls' + 1;
      done' := done' + 1;
    }
    assert es[..|targets|] == es;
  }

  lemma ExecutionsAt(a: Adapter, targets: seq<string>)
    ensures var es := Executions(a, targets); |es| == |targets| && forall i :: 0 <= i < |es| ==> es[i] == Execute(a, targets[i])
  {
  }

  lemma VisitsNext(plan: seq<Adapter>, i: nat, tools: bool, targets: seq<string>)
    requires i < |plan|
    ensures Visits(plan[..i + 1], tools, targets) == Visits(plan[..i], tools, targets) + VisitsOf(plan[i], tools, targets)
  {
    assert plan[..i + 1][..i] == plan[..i];
  }

  lemma {:induction false} VisitsPrefix(plan: seq<Adapter>, k: nat, tools: bool, targets: seq<string>)
    requires k <= |plan|
    ensures Visits(plan[..k], tools, targets) <= Visits(plan, tools, targets)
    decreases |plan| - k
  {
    hide VisitsOf;
    if k == |plan| {
      assert plan[..k] == plan;
    } else {
      VisitsNext(plan, k, tools, targets);
      VisitsPrefix(plan, k + 1, tools, targets);
    }
  }

  /** The outcome of the loop over the whole plan. */
  method WalkPlan(ghost queued: Job, job: Job, saves: seq<Job>, plan: seq<Adapter>, tools: bool, targets: seq<string>,
                  steps: int, cancelled: nat -> bool)
    returns (job': Job, saves': seq<Job>, collected: seq<Finding>, perTarget: map<string, nat>, stopped: bool,
             ghost visits: seq<Visit>)
    requires InStep(queued, job, saves, [], map[], NOWHERE, targets)
    requires steps > 0 && job.progress == Percent(0, steps)
    ensures InStep(queued, job', saves', collected, perTarget, Follow(visits), targets)
    ensures !stopped ==> visits == Visits(plan, tools, targets)
    ensures stopped ==> visits < Visits(plan, tools, targets) && Visits(plan, tools, targets)[|visits|].Execute?
  {
    hide InStep, Percent, Follow, VisitsOf;
    job', saves', collected, perTarget, stopped := job, saves, [], map[], false;
    visits := [];
    var calls: nat, done: nat := 0, 0;
    assert Follow(visits) == NOWHERE by { FollowNothing(); }
    for i := 0 to |plan|
      invariant InStep(queued, job', saves', collected, perTarget, Follow(visits), targets)
      invariant calls == |Follow(visits).calls| && job'.progress == Percent(done, steps)
      invariant visits == Visits(plan[..i], tools, targets)
    {
      var a := plan[i];
      var why := Why(a, tools);
      VisitsNext(plan, i, tools, targets);
      VisitsPrefix(plan, i + 1, tools, targets);
      if why.Some? {
        FollowSnoc(visits, Skip(a, why.value));
        assert VisitsOf(a, tools, targets) == [Skip(a, why.value)] by { VisitsOfSkipped(a, tools, targets); }
        job', saves' := SkipAdapter(queued, job', saves', collected, perTarget, Follow(visits), a, why.value, targets, done, steps);
        visits := visits + [Skip(a, why.value)];
        done := done + |targets|;
        continue;
      }
      assert VisitsOf(a, tools, targets) == Executions(a, targets) by { VisitsOfExecuted(a, tools, targets); }
      job', saves', collected, perTarget, calls, done, stopped, visits :=
        ExecuteAdapter(queued, job', saves', collected, perTarget, visits, a, targets, calls, done, steps, cancelled);
      if stopped {
        ExecutionsAt(a, targets);
        return;
      }
    }
    assert plan[..|plan|] == plan;
  }

  lemma FollowNothing()
    ensures Follow([]) == NOWHERE
  {
  }

  lemma VisitsOfSkipped(a: Adapter, tools: bool, targets: seq<string>)
    requires Why(a, tools).Some?
    ensures VisitsOf(a, tools, targets) == [Skip(a, Why(a, tools).value)]
  {
  }

  lemma VisitsOfExecuted(a: Adapter, tools: bool, targets: seq<string>)
    requires Why(a, tools).None?
    ensures VisitsOf(a, tools, targets) == Executions(a, targets)
  {
  }

  // ----- the whole run -----

  function Merged(calls: seq<Call>): seq<Finding> { FoldIn([], Gathered(calls)) }

  function Ranked(calls: seq<Call>, annotate: Finding -> Finding): seq<Finding> {
    Rank(MapSeq(annotate, Merged(calls)))
  }

  /** The record of a run that was cancelled: nothing but its state and what was recorded until then. */
  ghost predicate Stopped(final: Job, queued: Job, started: int, finished: int) {
    final == queued.(state := Failed, started := started, finished := finished, error := "assessment was cancelled",
                     adapters := final.adapters, progress := 100, phase := "cancelled")
  }

  /** The record of a run that went through, and the findings it leaves: ranked worst first, with as many counted
      as shown as the tier allows. */
  ghost predicate Finished(final: Job, stored: seq<Finding>, queued: Job, calls: seq<Call>, annotate: Finding -> Finding,
                           maxShown: int, storeOk: bool, started: int, finished: int)
  {
    var n := |Merged(calls)|;
    && final == queued.(state := if storeOk then Completed else Failed, started := started, finished := finished,
                        error := if storeOk then queued.error else "findings could not be stored",
                        targets := final.targets, adapters := final.adapters, progress := 100, phase := "complete",
                        findingsTotal := n, findingsShown := if maxShown <= 0 || n < maxShown then n else maxShown)
    && WorstFirst(stored)
    && multiset(stored) == (if storeOk then multiset(MapSeq(annotate, Merged(calls))) else multiset{})
    && |final.targets| == |queued.targets|
    && (forall i :: 0 <= i < |final.targets| ==> Settled(final.targets[i], queued.targets[i], calls))
    && FindingsIn(final.targets) == |Gathered(calls)|
  }

  /** Carries out a queued job. `annotate` stands for the control mapping, `stored` is what the store then holds
      for the job. */
  method RunJob(queued: Job, names: seq<string>, registry: map<string, Adapter>, targets: seq<string>, limits: Limits,
                annotate: Finding -> Finding, cancelled: nat -> bool, storeOk: bool, started: int, finished: int)
    returns (saves: seq<Job>, stored: seq<Finding>, ghost visits: seq<Visit>)
    requires queued.state == Queued && queued.progress == 0 && queued.adapters == [] && Submitted(queued.targets, targets)
    requires forall f :: annotate(f).id == f.id
    ensures EndsOnce(saves)
    ensures saves[|saves| - 1].adapters == Follow(visits).records
    ensures var all := Visits(Plan(names, registry), limits.tools, targets);
            var calls := Follow(visits).calls;
            var final := saves[|saves| - 1];
            if final.phase == "cancelled" then
              && visits < all && all[|visits|].Execute?
              && Stopped(final, queued, started, finished) && stored == []
            else
              && visits == all
              && stored == (if storeOk then Ranked(calls, annotate) else [])
              && Finished(final, stored, queued, calls, annotate, limits.maxShown, storeOk, started, finished)
  {
    hide InStep, Percent, Follow, Visits, SettleAll, FindingsIn, Gathered, FoldIn, Submitted, Plan, EndsOnce, Settled, WorstFirst;
    var job := queued.(state := Running, started := started, phase := "starting");
    ghost var begun := job;
    var plan := SelectAdapters(names, registry);
    var steps := |plan| * |targets|;
    if steps == 0 {
      steps := 1;
    }
    StepsPositive(|plan|, |targets|);
    PercentOfNothing(steps);
    saves := [job];
    StartsInStep(begun, job, targets);
    var collected, perTarget, stopped;
    job, saves, collected, perTarget, stopped, visits := WalkPlan(begun, job, saves, plan, limits.tools, targets, steps, cancelled);
    ghost var calls := Follow(visits).calls;
    StepFacts(begun, job, saves, collected, perTarget, Follow(visits), targets);
    if stopped {
      job := job.(state := Failed, error := "assessment was cancelled", phase := "cancelled", finished := finished, progress := 100);
      SaveLast(saves, job);
      saves := saves + [job];
      stored := [];
      return;
    }
    job := job.(phase := "correlating");
    SaveGoing(saves, job);
    saves := saves + [job];
    var merged := FoldIn([], collected);
    var ranked := Rank(MapSeq(annotate, merged));
    var capped := ApplyCap(ranked, limits.maxShown);
    stored := [];
    if !storeOk {
      job := job.(state := Failed, error := "findings could not be stored");
    } else {
      stored := FoldIn([], ranked);
      job := job.(state := Completed);
      StoredAsRanked(collected, annotate);
    }
    RankedWorstFirst(MapSeq(annotate, merged));
    NothingRanked();
    CountsAddUp(job.targets, targets, perTarget, calls);
    forall i | 0 <= i < |job.targets| ensures Settled(SettleAll(job.targets, perTarget)[i], queued.targets[i], calls) {
      OutcomesSettled(job.targets, targets, perTarget, calls, i);
    }
    job := job.(targets := SettleAll(job.targets, perTarget));
    job := job.(findingsTotal := capped.total, findingsShown := |capped.shown|);
    job := job.(finished := finished, progress := 100, phase := "complete");
    SaveLast(saves, job);
    saves := saves + [job];
    SumOfMerge(collected);
  }

  lemma NothingRanked()
    ensures WorstFirst([])
  {
  }

  lemma StepsPositive(p: nat, t: nat)
    ensures p * t >= 0
  {
  }

  lemma PercentOfNothing(steps: int)
    requires steps > 0
    ensures Percent(0, steps) == 0
  {
  }

  lemma StartsInStep(queued: Job, job: Job, targets: seq<string>)
    requires Going(job) && queued.adapters == [] && job == queued
    ensures InStep(queued, job, [job], [], map[], NOWHERE, targets)
  {
  }

  lemma StepFacts(queued: Job, job: Job, saves: seq<Job>, collected: seq<Finding>, perTarget: map<string, nat>,
                  trail: Trail, targets: seq<string>)
    requires InStep(queued, job, saves, collected, perTarget, trail, targets) && queued.adapters == []
    ensures saves != [] && UpTo(saves, job) && job.adapters == trail.records
    ensures job == queued.(phase := job.phase, adapters := job.adapters, progress := job.progress)
    ensures collected == Gathered(trail.calls) && Tallied(perTarget, trail.calls)
    ensures forall c :: c in trail.calls ==> c.target in targets
  {
  }

  /** Ranking after annotation keeps the IDs distinct, so storing changes nothing. */
  lemma StoredAsRanked(collected: seq<Finding>, annotate: Finding -> Finding)
    requires forall f :: annotate(f).id == f.id
    ensures var ranked := Rank(MapSeq(annotate, FoldIn([], collected))); FoldIn([], ranked) == ranked
  {
    hide FoldIn, FindingLeq, SortBy;
    var merged := FoldIn([], collected);
    FoldedIds(collected);
    assert Ids(MapSeq(annotate, merged)) == Ids(merged);
    RankedIsStrict(MapSeq(annotate, merged));
    FoldAgain(Rank(MapSeq(annotate, merged)));
  }

  lemma SumOfMerge(collected: seq<Finding>)
    ensures |FoldIn([], collected)| <= |collected|
  {
    hide FoldIn;
    FoldedIds(collected);
  }
}
