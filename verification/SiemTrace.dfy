/** The exported stream over whole histories of a deployment: runs of many definitions start, finish and
    fail in any interleaving; for a definition whose own runs do not overlap, replaying its events always
    leaves exactly the findings of its latest completed run open. */
module SiemTrace {
  import opened Text
  import opened Ordering
  import opened Findings
  import opened Records
  import opened Correlate
  import opened Store
  import opened Delta
  import opened Siem

  datatype Step =
    | Start(job: Job)                         // the job record is created
    | Finish(id: string, fs: seq<Finding>)    // findings stored, job completed, `afterRun`
    | Abort(id: string)                       // failed or cancelled

  datatype World = World(store: MemState, sent: seq<Event>)

  const GENESIS := World(EMPTY_MEM, [])

  /** The comparison of a job with the latest other completed run of its definition. */
  function DeltaFor(s: MemState, job: Job): (Result, Option<Job>) {
    var current := FindingsOf(s.findings, job.id);
    match LastCompleted(s.jobs, s.order, job.definitionId, job.id)
    case None => (CompareRuns([], current, "", job.id, ZERO_TIME, job.finished), None)
    case Some(b) =>
      (CompareRuns(FindingsOf(s.findings, b.id), current, b.id, job.id, b.finished, job.finished), Some(b))
  }

  /** One step; `sent` collects what is exported for runs of definition `d`. */
  function Advance(d: string, w: World, step: Step): World {
    match step
    case Start(job) => w.(store := MemStep(w.store, CreateJob(job)).0)
    case Abort(id) =>
      if id !in w.store.jobs then w
      else w.(store := MemStep(w.store, UpdateJob(w.store.jobs[id].(state := Failed))).0)
    case Finish(id, fs) =>
      if id !in w.store.jobs then w
      else
        var job := w.store.jobs[id].(state := Completed);
        var s := MemStep(MemStep(w.store, AddFindings(id, fs)).0, UpdateJob(job)).0;
        var (res, b) := DeltaFor(s, job);
        var after := if b.Some? then MemStep(s, UpdateJob(job.(baselineJobId := b.value.id))).0 else s;
        World(after, if job.definitionId == d then w.sent + EventsOf(res.HasBaseline(), res.entries) else w.sent)
  }

  predicate Live(jobs: map<string, Job>, id: string, d: string) {
    id in jobs && jobs[id].definitionId == d && !jobs[id].state.Terminal()
  }

  /** What the runner can do next, with runs of `d` not overlapping. */
  ghost predicate Enabled(d: string, w: World, step: Step) {
    match step
    case Start(job) =>
      && job.id != "" && job.id !in w.store.jobs && (job.state == Queued || job.state == Refused)
      && (job.definitionId == d && job.state == Queued ==> forall id :: !Live(w.store.jobs, id, d))
    case Abort(id) => id in w.store.jobs && !w.store.jobs[id].state.Terminal()
    case Finish(id, fs) =>
      && id in w.store.jobs && !w.store.jobs[id].state.Terminal()
      && id !in w.store.findings && DistinctIds(fs)
  }

  function History(d: string, steps: seq<Step>): World {
    if steps == [] then GENESIS else Advance(d, History(d, steps[..|steps| - 1]), steps[|steps| - 1])
  }

  ghost predicate Possible(d: string, steps: seq<Step>) {
    steps == [] ||
    (Possible(d, steps[..|steps| - 1]) && Enabled(d, History(d, steps[..|steps| - 1]), steps[|steps| - 1]))
  }

  // ----- which run is the latest -----

  /** `k` is the position of the latest run. */
  ghost predicate LatestAt(jobs: map<string, Job>, order: seq<string>, d: string, x: string, k: int) {
    && 0 <= k < |order| && IsRunOf(jobs, order[k], d, x)
    && forall j :: k < j < |order| ==> !IsRunOf(jobs, order[j], d, x)
  }

  ghost predicate NoRun(jobs: map<string, Job>, order: seq<string>, d: string, x: string) {
    forall j :: 0 <= j < |order| ==> !IsRunOf(jobs, order[j], d, x)
  }

  lemma {:induction false} LatestFound(jobs: map<string, Job>, order: seq<string>, d: string, x: string, k: int)
    requires LatestAt(jobs, order, d, x, k) && d != ""
    ensures LastCompleted(jobs, order, d, x) == Some(jobs[order[k]])
  {
    hide IsRunOf;
    var n := |order| - 1;
    if k < n {
      assert order[..n][k] == order[k];
      assert LatestAt(jobs, order[..n], d, x, k);
      LatestFound(jobs, order[..n], d, x, k);
    }
  }

  lemma {:induction false} NoneFound(jobs: map<string, Job>, order: seq<string>, d: string, x: string)
    requires NoRun(jobs, order, d, x)
    ensures LastCompleted(jobs, order, d, x) == None
  {
    hide IsRunOf;
    if order != [] {
      NoneFound(jobs, order[..|order| - 1], d, x);
    }
  }

  lemma {:induction false} LatestExists(jobs: map<string, Job>, order: seq<string>, d: string, x: string)
    ensures NoRun(jobs, order, d, x) || exists k :: LatestAt(jobs, order, d, x, k)
  {
    hide IsRunOf;
    if order != [] {
      var n := |order| - 1;
      if IsRunOf(jobs, order[n], d, x) {
        assert LatestAt(jobs, order, d, x, n);
      } else {
        LatestExists(jobs, order[..n], d, x);
        if k :| LatestAt(jobs, order[..n], d, x, k) {
          assert LatestAt(jobs, order, d, x, k);
        }
      }
    }
  }

  // ----- the invariant -----

  ghost predicate Sound(s: MemState) {
    && NoDuplicates(s.order) && (forall id :: id in s.order <==> id in s.jobs)
    && (forall id :: id in s.jobs ==> s.jobs[id].id == id && id != "")
    && (forall id :: id in s.findings ==> DistinctIds(s.findings[id]))
  }

  /** After a live run of `d` nothing of `d` stands that is live or completed. */
  ghost predicate NoOverlap(d: string, s: MemState) {
    forall i, j :: 0 <= i < j < |s.order| && Live(s.jobs, s.order[i], d) ==>
      !Live(s.jobs, s.order[j], d) && !IsRunOf(s.jobs, s.order[j], d, "")
  }

  /** The receiver is in step with the latest run of `d`. */
  ghost predicate InStep(d: string, w: World) {
    var open := Replay(map[], w.sent);
    && (NoRun(w.store.jobs, w.store.order, d, "") ==> open == map[])
    && forall k :: LatestAt(w.store.jobs, w.store.order, d, "", k) ==>
         Mirrors(open, FindingsOf(w.store.findings, w.store.order[k]))
  }

  ghost predicate Invariant(d: string, w: World) {
    Sound(w.store) && NoOverlap(d, w.store) && InStep(d, w)
  }

  /** Two states that differ at one job only. */
  ghost predicate SameBut(a: MemState, b: MemState, id: string) {
    forall x :: x != id ==>
      && (x in b.jobs <==> x in a.jobs) && (x in a.jobs ==> b.jobs[x] == a.jobs[x])
      && FindingsOf(b.findings, x) == FindingsOf(a.findings, x)
  }

  /** Steps that neither complete a run of `d` nor touch stored findings of one. */
  lemma RunsUntouched(d: string, w: World, w': World)
    requires Invariant(d, w) && Sound(w'.store) && NoOverlap(d, w'.store) && w'.sent == w.sent
    requires w.store.order <= w'.store.order
    requires forall j :: 0 <= j < |w.store.order| ==>
               (IsRunOf(w'.store.jobs, w.store.order[j], d, "") <==> IsRunOf(w.store.jobs, w.store.order[j], d, ""))
    requires forall j :: |w.store.order| <= j < |w'.store.order| ==> !IsRunOf(w'.store.jobs, w'.store.order[j], d, "")
    requires forall id :: IsRunOf(w.store.jobs, id, d, "") ==>
               FindingsOf(w'.store.findings, id) == FindingsOf(w.store.findings, id)
    ensures Invariant(d, w')
  {
    hide IsRunOf, Sound, NoOverlap, Mirrors, Replay, FindingsOf;
    var a, b := w.store, w'.store;
    assert forall j :: 0 <= j < |a.order| ==> b.order[j] == a.order[j];
    forall k | LatestAt(b.jobs, b.order, d, "", k)
      ensures Mirrors(Replay(map[], w'.sent), FindingsOf(b.findings, b.order[k])) {
      assert k < |a.order|;
      assert LatestAt(a.jobs, a.order, d, "", k);
    }
  }

  lemma StartStep(d: string, w: World, job: Job)
    requires Invariant(d, w) && Enabled(d, w, Start(job)) && d != ""
    ensures Invariant(d, Advance(d, w, Start(job)))
  {
    hide FoldIn, Replay, Mirrors, InStep, DistinctIds;
    var w' := Advance(d, w, Start(job));
    var a, b := w.store, w'.store;
    assert b.order == a.order + [job.id] && b.jobs == a.jobs[job.id := job];
    assert Sound(b);
    assert NoOverlap(d, b) by {
      forall i, j | 0 <= i < j < |b.order| && Live(b.jobs, b.order[i], d)
        ensures !Live(b.jobs, b.order[j], d) && !IsRunOf(b.jobs, b.order[j], d, "") {
        assert Live(a.jobs, a.order[i], d);
        if j < |a.order| {
          assert b.order[j] == a.order[j];
        }
      }
    }
    RunsUntouched(d, w, w');
  }

  /** A live job becoming terminal without completing a run of `d`. */
  lemma SettleStep(d: string, w: World, w': World, id: string)
    requires Invariant(d, w) && id in w.store.jobs && !w.store.jobs[id].state.Terminal()
    requires Sound(w'.store) && w'.sent == w.sent && w'.store.order == w.store.order
    requires id in w'.store.jobs && w'.store.jobs[id].state.Terminal() && !IsRunOf(w'.store.jobs, id, d, "")
    requires SameBut(w.store, w'.store, id)
    ensures Invariant(d, w')
  {
    hide Replay, Mirrors, InStep, DistinctIds, FindingsOf;
    var a, b := w.store, w'.store;
    forall x ensures IsRunOf(b.jobs, x, d, "") <==> IsRunOf(a.jobs, x, d, "") {}
    forall x | Live(b.jobs, x, d) ensures Live(a.jobs, x, d) {}
    assert NoOverlap(d, b);
    RunsUntouched(d, w, w');
  }

  lemma AbortStep(d: string, w: World, id: string)
    requires Invariant(d, w) && Enabled(d, w, Abort(id))
    ensures Invariant(d, Advance(d, w, Abort(id)))
  {
    hide Replay, Mirrors, InStep, DistinctIds, FoldIn, NoOverlap;
    var w' := Advance(d, w, Abort(id));
    assert w'.store.jobs[id].state == Failed;
    assert Sound(w'.store);
    SettleStep(d, w, w', id);
  }

  /** The store right after a job has finished. */
  lemma FinishElsewhere(d: string, w: World, id: string, fs: seq<Finding>)
    requires Invariant(d, w) && Enabled(d, w, Finish(id, fs)) && w.store.jobs[id].definitionId != d
    ensures Invariant(d, Advance(d, w, Finish(id, fs)))
  {
    hide FoldIn, DistinctIds, LastCompleted, CompareRuns, EventsOf, Replay, Mirrors, InStep, NoOverlap, Sound;
    FinishedStore(d, w, id, fs);
    assert Sound(w.store);
    assert Advance(d, w, Finish(id, fs)).sent == w.sent;
    hide Advance;
    SettleStep(d, w, Advance(d, w, Finish(id, fs)), id);
  }

  /** The store when the run has just been recorded as completed. */
  function Recorded(s: MemState, id: string, fs: seq<Finding>): MemState
    requires id in s.jobs
  {
    MemStep(MemStep(s, AddFindings(id, fs)).0, UpdateJob(s.jobs[id].(state := Completed))).0
  }

  lemma RecordedStore(d: string, w: World, id: string, fs: seq<Finding>)
    requires Sound(w.store) && Enabled(d, w, Finish(id, fs))
    ensures var s, job := Recorded(w.store, id, fs), w.store.jobs[id].(state := Completed);
            && s.jobs == w.store.jobs[id := job] && s.order == w.store.order && s.findings == w.store.findings[id := fs]
            && job.id == id
            && (job.definitionId == d ==>
                 Advance(d, w, Finish(id, fs)).sent ==
                 w.sent + EventsOf(DeltaFor(s, job).0.HasBaseline(), DeltaFor(s, job).0.entries))
  {
    hide FoldIn, DistinctIds, LastCompleted, EventsOf, CompareRuns;
    assert [] + fs == fs;
    FoldInDistinct([], fs);
  }

  /** After the findings are stored and the job completed, only the baseline of the job may still change. */
  lemma AfterRecorded(d: string, w: World, id: string, fs: seq<Finding>)
    requires id in w.store.jobs && w.store.jobs[id].id == id
    ensures var b, s := Advance(d, w, Finish(id, fs)).store, Recorded(w.store, id, fs);
            && b.order == s.order && b.findings == s.findings && id in s.jobs
            && b.jobs.Keys == s.jobs.Keys && (forall x :: x in s.jobs && x != id ==> b.jobs[x] == s.jobs[x])
            && b.jobs[id] == s.jobs[id].(baselineJobId := b.jobs[id].baselineJobId)
  {
    hide FoldIn, LastCompleted, EventsOf, CompareRuns;
  }

  lemma FinishedStore(d: string, w: World, id: string, fs: seq<Finding>)
    requires Sound(w.store) && Enabled(d, w, Finish(id, fs))
    ensures var w' := Advance(d, w, Finish(id, fs));
            var b := w'.store;
            && Sound(b) && b.order == w.store.order
            && id in b.jobs && b.jobs[id].state == Completed && b.jobs[id].definitionId == w.store.jobs[id].definitionId
            && FindingsOf(b.findings, id) == fs
            && SameBut(w.store, b, id)
  {
    hide DistinctIds, Advance, Recorded;
    RecordedStore(d, w, id, fs);
    AfterRecorded(d, w, id, fs);
  }

  lemma ExportedEvents(baseline: seq<Finding>, current: seq<Finding>, b: string, id: string, x: int, y: int)
    ensures var r := CompareRuns(baseline, current, b, id, x, y);
            EventsOf(r.HasBaseline(), r.entries) == Export(baseline, current, b)
  {
    hide EventsOf, Count, SortEntries, Entries, CountChanges;
  }

  lemma SameRuns(d: string, w: World, id: string, fs: seq<Finding>)
    requires Sound(w.store) && Enabled(d, w, Finish(id, fs)) && d != ""
    ensures forall x :: x in w.store.order ==>
              (IsRunOf(Recorded(w.store, id, fs).jobs, x, d, id) <==> IsRunOf(w.store.jobs, x, d, ""))
  {
    RecordedStore(d, w, id, fs);
    hide Recorded, Advance, DistinctIds, EventsOf, CompareRuns, LastCompleted;
  }

  /** What a finishing run of `d` is compared with: the latest run completed before it. */
  lemma BaselineOfFinish(d: string, w: World, id: string, fs: seq<Finding>)
    requires Sound(w.store) && Enabled(d, w, Finish(id, fs)) && w.store.jobs[id].definitionId == d && d != ""
    ensures var w' := Advance(d, w, Finish(id, fs));
            && (NoRun(w.store.jobs, w.store.order, d, "") ==> w'.sent == w.sent + Export([], fs, ""))
            && forall k :: LatestAt(w.store.jobs, w.store.order, d, "", k) ==>
                 var b := w.store.order[k];
                 b != "" && w'.sent == w.sent + Export(FindingsOf(w.store.findings, b), fs, b)
  {
    var a, s := w.store, Recorded(w.store, id, fs);
    var job := a.jobs[id].(state := Completed);
    RecordedStore(d, w, id, fs);
    SameRuns(d, w, id, fs);
    hide DistinctIds, LastCompleted, EventsOf, CompareRuns, Recorded, Advance, Export, IsRunOf;
    if NoRun(a.jobs, a.order, d, "") {
      assert NoRun(s.jobs, s.order, d, id);
      NoneFound(s.jobs, s.order, d, id);
      ExportedEvents([], fs, "", id, ZERO_TIME, job.finished);
    }
    forall k | LatestAt(a.jobs, a.order, d, "", k)
      ensures a.order[k] != "" && Advance(d, w, Finish(id, fs)).sent
           == w.sent + Export(FindingsOf(a.findings, a.order[k]), fs, a.order[k]) {
      var b := a.order[k];
      assert b in a.order && b != id;
      assert LatestAt(s.jobs, s.order, d, id, k);
      LatestFound(s.jobs, s.order, d, id, k);
      assert FindingsOf(s.findings, b) == FindingsOf(a.findings, b);
      ExportedEvents(FindingsOf(a.findings, b), fs, b, id, a.jobs[b].finished, job.finished);
    }
  }

  lemma FinishOverlap(d: string, w: World, id: string, b: MemState)
    requires Sound(w.store) && NoOverlap(d, w.store) && Live(w.store.jobs, id, d)
    requires b.order == w.store.order && id in b.jobs && b.jobs[id].state == Completed && b.jobs[id].id == id && id != ""
    requires b.jobs[id].definitionId == d
    requires SameBut(w.store, b, id)
    ensures NoOverlap(d, b)
    ensures forall k :: LatestAt(b.jobs, b.order, d, "", k) ==> b.order[k] == id
    ensures !NoRun(b.jobs, b.order, d, "")
  {
    hide DistinctIds;
    var a := w.store;
    assert id in a.order;
    var p :| 0 <= p < |a.order| && a.order[p] == id;
    assert IsRunOf(b.jobs, b.order[p], d, "");
    forall j | p < j < |a.order| ensures !IsRunOf(b.jobs, b.order[j], d, "") && !Live(b.jobs, b.order[j], d) {
      assert a.order[j] != id;
    }
    forall i | 0 <= i < |b.order| ensures !Live(b.jobs, b.order[i], d) {
      if i != p {
        OnlyLive(d, a, p, i);
        assert a.order[i] != id;
      }
    }
  }

  lemma OnlyLive(d: string, a: MemState, p: int, i: int)
    requires NoOverlap(d, a) && 0 <= p < |a.order| && 0 <= i < |a.order| && i != p && Live(a.jobs, a.order[p], d)
    ensures !Live(a.jobs, a.order[i], d)
  {
    hide Live;
  }

  lemma FinishMirrors(d: string, w: World, id: string, fs: seq<Finding>)
    requires Invariant(d, w) && Enabled(d, w, Finish(id, fs)) && w.store.jobs[id].definitionId == d && d != ""
    ensures Mirrors(Replay(map[], Advance(d, w, Finish(id, fs)).sent), fs)
  {
    hide DistinctIds, Export, Replay, Mirrors, Advance, NoOverlap, Sound;
    BaselineOfFinish(d, w, id, fs);
    var a := w.store;
    LatestExists(a.jobs, a.order, d, "");
    if NoRun(a.jobs, a.order, d, "") {
      ReplayConcat(map[], w.sent, Export([], fs, ""));
      FirstRunOpensAll(fs);
    } else {
      var k :| LatestAt(a.jobs, a.order, d, "", k);
      var prev := FindingsOf(a.findings, a.order[k]);
      PrevDistinct(a, a.order[k]);
      ReplayConcat(map[], w.sent, Export(prev, fs, a.order[k]));
      RunKeepsMirror(Replay(map[], w.sent), prev, fs, a.order[k]);
    }
  }

  lemma FinishHere(d: string, w: World, id: string, fs: seq<Finding>)
    requires Invariant(d, w) && Enabled(d, w, Finish(id, fs)) && w.store.jobs[id].definitionId == d && d != ""
    ensures Invariant(d, Advance(d, w, Finish(id, fs)))
  {
    var w' := Advance(d, w, Finish(id, fs));
    hide Export, Replay, Mirrors, Advance, NoOverlap, IsRunOf, FindingsOf, SameBut;
    FinishedStore(d, w, id, fs);
    assert Sound(w'.store);
    FinishOverlap(d, w, id, w'.store);
    FinishMirrors(d, w, id, fs);
  }

  lemma PrevDistinct(s: MemState, id: string)
    requires Sound(s)
    ensures DistinctIds(FindingsOf(s.findings, id))
  {
  }

  lemma InvariantStep(d: string, w: World, step: Step)
    requires Invariant(d, w) && Enabled(d, w, step) && d != ""
    ensures Invariant(d, Advance(d, w, step))
  {
    hide Invariant, Advance;
    match step {
      case Start(job) => StartStep(d, w, job);
      case Abort(id) => AbortStep(d, w, id);
      case Finish(id, fs) =>
        if w.store.jobs[id].definitionId == d {
          FinishHere(d, w, id, fs);
        } else {
          FinishElsewhere(d, w, id, fs);
        }
    }
  }

  lemma {:induction false} InvariantAlways(d: string, steps: seq<Step>)
    requires Possible(d, steps) && d != ""
    ensures Invariant(d, History(d, steps))
  {
    hide Invariant, Advance, Enabled;
    if steps == [] {
      GenesisSound(d);
    } else {
      InvariantAlways(d, steps[..|steps| - 1]);
      InvariantStep(d, History(d, steps[..|steps| - 1]), steps[|steps| - 1]);
    }
  }

  lemma GenesisSound(d: string)
    ensures Invariant(d, GENESIS)
  {
  }

  /** After every possible history: if the definition has a completed run, exactly its findings are open at
      the receiver, none at a severity below the current one; before the first run nothing is open. */
  lemma ReceiverMirrorsLatestRun(d: string, steps: seq<Step>)
    requires Possible(d, steps) && d != ""
    ensures var w := History(d, steps);
            var open := Replay(map[], w.sent);
            match LastCompleted(w.store.jobs, w.store.order, d, "")
            case None => open == map[]
            case Some(job) => Mirrors(open, FindingsOf(w.store.findings, job.id))
  {
    hide Mirrors, Replay, History, FindingsOf, Possible, NoOverlap;
    var w := History(d, steps);
    InvariantAlways(d, steps);
    LatestExists(w.store.jobs, w.store.order, d, "");
    if NoRun(w.store.jobs, w.store.order, d, "") {
      NoneFound(w.store.jobs, w.store.order, d, "");
    } else {
      var k :| LatestAt(w.store.jobs, w.store.order, d, "", k);
      LatestFound(w.store.jobs, w.store.order, d, "", k);
      assert w.store.order[k] in w.store.order;
    }
  }

  /** What overlapping runs do: a run that started before the latest completed one and finishes after it leaves
      the receiver with its own findings, not those of the latest run; the open identities are still those of
      the latest run exactly when both found the same ones. */
  lemma LateFinishShowsTheOlderRun(d: string, w: World, id: string, fs: seq<Finding>, p: int, k: int)
    requires Sound(w.store) && Enabled(d, w, Finish(id, fs)) && w.store.jobs[id].definitionId == d && d != ""
    requires LatestAt(w.store.jobs, w.store.order, d, "", k)
    requires 0 <= p < k && w.store.order[p] == id
    requires Mirrors(Replay(map[], w.sent), FindingsOf(w.store.findings, w.store.order[k]))
    ensures var w' := Advance(d, w, Finish(id, fs));
            var latest := FindingsOf(w.store.findings, w.store.order[k]);
            && LastCompleted(w'.store.jobs, w'.store.order, d, "").Some?
            && LastCompleted(w'.store.jobs, w'.store.order, d, "").value.id == w.store.order[k] != id
            && FindingsOf(w'.store.findings, w.store.order[k]) == latest
            && Mirrors(Replay(map[], w'.sent), fs)
            && (Replay(map[], w'.sent).Keys == SetOf(Ids(latest)) <==> SetOf(Ids(fs)) == SetOf(Ids(latest)))
  {
    hide DistinctIds, Export, Replay, Advance, Ids;
    var a, w' := w.store, Advance(d, w, Finish(id, fs));
    var b := a.order[k];
    assert b in a.order && b != id;
    BaselineOfFinish(d, w, id, fs);
    FinishedStore(d, w, id, fs);
    PrevDistinct(a, b);
    ReplayConcat(map[], w.sent, Export(FindingsOf(a.findings, b), fs, b));
    RunKeepsMirror(Replay(map[], w.sent), FindingsOf(a.findings, b), fs, b);
    assert LatestAt(w'.store.jobs, w'.store.order, d, "", k);
    LatestFound(w'.store.jobs, w'.store.order, d, "", k);
  }

  // ----- histories in which runs of the definition may overlap -----

  /** What the runner can do next, overlapping or not. */
  ghost predicate Allowed(w: World, step: Step) {
    match step
    case Start(job) => job.id != "" && job.id !in w.store.jobs && (job.state == Queued || job.state == Refused)
    case Abort(id) => id in w.store.jobs && !w.store.jobs[id].state.Terminal()
    case Finish(id, fs) =>
      && id in w.store.jobs && !w.store.jobs[id].state.Terminal()
      && id !in w.store.findings && DistinctIds(fs)
  }

  ghost predicate Feasible(d: string, steps: seq<Step>) {
    steps == [] ||
    (Feasible(d, steps[..|steps| - 1]) && Allowed(History(d, steps[..|steps| - 1]), steps[|steps| - 1]))
  }

  lemma SoundStep(d: string, w: World, step: Step)
    requires Sound(w.store) && Allowed(w, step)
    ensures Sound(Advance(d, w, step).store)
  {
    match step {
      case Start(job) =>
        var b := Advance(d, w, step).store;
        assert b.order == w.store.order + [job.id] && b.jobs == w.store.jobs[job.id := job];
      case Abort(id) =>
      case Finish(id, fs) =>
        hide FoldIn, DistinctIds, LastCompleted, CompareRuns, EventsOf, Advance, SameBut, FindingsOf;
        assert Enabled(d, w, step);
        FinishedStore(d, w, id, fs);
    }
  }

  lemma {:induction false} SoundAlways(d: string, steps: seq<Step>)
    requires Feasible(d, steps)
    ensures Sound(History(d, steps).store)
  {
    hide Sound, Advance, Allowed;
    if steps == [] {
      assert Sound(GENESIS.store) by { GenesisSound(d); }
    } else {
      SoundAlways(d, steps[..|steps| - 1]);
      SoundStep(d, History(d, steps[..|steps| - 1]), steps[|steps| - 1]);
    }
  }

  /** What the run at place `p` leaves when it finishes after the one at place `k` was the latest: the receiver is a
      mirror of the run that is then the latest, severities included, exactly when it was ready for the comparison
      sent and, if the run that finished is not itself the latest, both found the same identities. */
  ghost predicate LeavesMirror(d: string, w: World, v: World, id: string, fs: seq<Finding>, p: int, k: int)
    requires 0 <= k < |w.store.order|
  {
    var prev, open, after := FindingsOf(w.store.findings, w.store.order[k]), Replay(map[], w.sent), Replay(map[], v.sent);
    var latest := LastCompleted(v.store.jobs, v.store.order, d, "");
    && p != k && latest.Some? && latest.value.id == (if p > k then id else w.store.order[k])
    && FindingsOf(v.store.findings, latest.value.id) == (if p > k then fs else prev)
    && (p > k ==> (Mirrors(after, fs) <==> ReadyFor(open, prev, fs, fs)))
    && (p < k ==> (Mirrors(after, prev) <==> SetOf(Ids(prev)) == SetOf(Ids(fs)) && ReadyFor(open, prev, fs, prev)))
  }

  /** After any history, overlapping runs included, and whatever the receiver holds by then: the first run to finish
      leaves it a mirror, and every later one exactly under the condition above. */
  lemma FinishMirrorsExactlyWhen(d: string, steps: seq<Step>, id: string, fs: seq<Finding>, p: int)
    requires Feasible(d, steps) && Allowed(History(d, steps), Finish(id, fs)) && d != ""
    requires var a := History(d, steps).store; a.jobs[id].definitionId == d && 0 <= p < |a.order| && a.order[p] == id
    ensures var w, v := History(d, steps), History(d, steps + [Finish(id, fs)]);
            if NoRun(w.store.jobs, w.store.order, d, "") then FirstMirror(d, v, id, fs)
            else exists k :: LatestAt(w.store.jobs, w.store.order, d, "", k) && LeavesMirror(d, w, v, id, fs, p, k)
  {
    hide Feasible, History, ReadyFor, Mirrors, Replay, Advance, FindingsOf, LastCompleted, Sound;
    var w := History(d, steps);
    SoundAlways(d, steps);
    assert Enabled(d, w, Finish(id, fs));
    HistorySnoc(d, steps, Finish(id, fs));
    if NoRun(w.store.jobs, w.store.order, d, "") {
      NothingSentBefore(d, steps);
      FirstFinish(d, w, id, fs, p);
    } else {
      LatestExists(w.store.jobs, w.store.order, d, "");
      var k :| LatestAt(w.store.jobs, w.store.order, d, "", k);
      LaterFinish(d, w, id, fs, p, k);
    }
  }

  ghost predicate FirstMirror(d: string, v: World, id: string, fs: seq<Finding>) {
    var latest := LastCompleted(v.store.jobs, v.store.order, d, "");
    latest.Some? && latest.value.id == id && FindingsOf(v.store.findings, id) == fs && Mirrors(Replay(map[], v.sent), fs)
  }

  /** As long as no run of the definition has completed, nothing has been sent. */
  lemma {:induction false} NothingSentBefore(d: string, steps: seq<Step>)
    requires Feasible(d, steps) && d != ""
    ensures var w := History(d, steps); NoRun(w.store.jobs, w.store.order, d, "") ==> w.sent == []
  {
    hide Advance, Allowed, NoRun, Sound;
    if steps != [] {
      NothingSentBefore(d, steps[..|steps| - 1]);
      SoundAlways(d, steps[..|steps| - 1]);
      SentOnlyByFinish(d, History(d, steps[..|steps| - 1]), steps[|steps| - 1]);
    }
  }

  lemma SentOnlyByFinish(d: string, w: World, step: Step)
    requires Sound(w.store) && Allowed(w, step) && d != ""
    ensures var v := Advance(d, w, step);
            NoRun(v.store.jobs, v.store.order, d, "") ==> NoRun(w.store.jobs, w.store.order, d, "") && v.sent == w.sent
  {
    hide DistinctIds, LastCompleted, CompareRuns, EventsOf, FindingsOf, FoldIn;
    var v := Advance(d, w, step);
    match step {
      case Start(job) =>
        assert v.store.order[..|w.store.order|] == w.store.order;
        RunsKept(d, w, v);
      case Abort(id) => RunsKept(d, w, v);
      case Finish(id, fs) =>
        hide Advance, SameBut;
        assert Enabled(d, w, step);
        FinishedStore(d, w, id, fs);
        FinishedRuns(d, w, v, id);
        if w.store.jobs[id].definitionId != d {
          OthersSendNothing(d, w, id, fs);
        }
    }
  }

  lemma RunsKept(d: string, w: World, v: World)
    requires w.store.order <= v.store.order
    requires forall x :: x in w.store.order && IsRunOf(w.store.jobs, x, d, "") ==> IsRunOf(v.store.jobs, x, d, "")
    ensures NoRun(v.store.jobs, v.store.order, d, "") ==> NoRun(w.store.jobs, w.store.order, d, "")
  {
    hide IsRunOf;
    forall j | 0 <= j < |w.store.order| ensures w.store.order[j] in w.store.order && v.store.order[j] == w.store.order[j] {}
  }

  lemma FinishedRuns(d: string, w: World, v: World, id: string)
    requires Sound(w.store) && Sound(v.store) && id in w.store.jobs && v.store.order == w.store.order && SameBut(w.store, v.store, id)
    requires id in v.store.jobs && v.store.jobs[id].state == Completed && v.store.jobs[id].definitionId == w.store.jobs[id].definitionId
    ensures NoRun(v.store.jobs, v.store.order, d, "") ==>
              NoRun(w.store.jobs, w.store.order, d, "") && w.store.jobs[id].definitionId != d
  {
    hide DistinctIds;
    RunsKept(d, w, v);
    assert id in w.store.order;
  }

  lemma OthersSendNothing(d: string, w: World, id: string, fs: seq<Finding>)
    requires id in w.store.jobs && w.store.jobs[id].definitionId != d
    ensures Advance(d, w, Finish(id, fs)).sent == w.sent
  {
    hide FoldIn, LastCompleted, CompareRuns, EventsOf;
  }

  lemma FirstFinish(d: string, w: World, id: string, fs: seq<Finding>, p: int)
    requires Sound(w.store) && Enabled(d, w, Finish(id, fs)) && w.store.jobs[id].definitionId == d && d != ""
    requires NoRun(w.store.jobs, w.store.order, d, "") && w.sent == [] && 0 <= p < |w.store.order| && w.store.order[p] == id
    ensures FirstMirror(d, Advance(d, w, Finish(id, fs)), id, fs)
  {
    hide DistinctIds, Advance, FindingsOf, LastCompleted, Mirrors, Replay, Export;
    var v := Advance(d, w, Finish(id, fs));
    FinishedStore(d, w, id, fs);
    BaselineOfFinish(d, w, id, fs);
    assert [] + Export([], fs, "") == Export([], fs, "");
    FirstRunOpensAll(fs);
    assert LatestAt(v.store.jobs, v.store.order, d, "", p);
    LatestFound(v.store.jobs, v.store.order, d, "", p);
  }

  lemma LaterFinish(d: string, w: World, id: string, fs: seq<Finding>, p: int, k: int)
    requires Sound(w.store) && Enabled(d, w, Finish(id, fs)) && w.store.jobs[id].definitionId == d && d != ""
    requires LatestAt(w.store.jobs, w.store.order, d, "", k) && 0 <= p < |w.store.order| && w.store.order[p] == id
    ensures LeavesMirror(d, w, Advance(d, w, Finish(id, fs)), id, fs, p, k)
  {
    hide ReadyFor, Mirrors, Replay, Advance, FindingsOf, LastCompleted, Sound, Ids, SetOf;
    LatestAfterFinish(d, w, id, fs, p, k);
    SentByFinish(d, w, id, fs, k);
  }

  /** Which run is the latest once a run has finished: that run if it was created last, else the one that was. */
  lemma LatestAfterFinish(d: string, w: World, id: string, fs: seq<Finding>, p: int, k: int)
    requires Sound(w.store) && Enabled(d, w, Finish(id, fs)) && w.store.jobs[id].definitionId == d && d != ""
    requires LatestAt(w.store.jobs, w.store.order, d, "", k) && 0 <= p < |w.store.order| && w.store.order[p] == id
    ensures var v := Advance(d, w, Finish(id, fs));
            var latest := LastCompleted(v.store.jobs, v.store.order, d, "");
            && p != k && latest.Some? && latest.value.id == (if p > k then id else w.store.order[k])
            && FindingsOf(v.store.findings, latest.value.id)
               == (if p > k then fs else FindingsOf(w.store.findings, w.store.order[k]))
  {
    hide DistinctIds, Advance, FindingsOf, LastCompleted;
    var v := Advance(d, w, Finish(id, fs));
    FinishedStore(d, w, id, fs);
    var l := if p > k then p else k;
    assert w.store.order[k] in w.store.order;
    assert LatestAt(v.store.jobs, v.store.order, d, "", l);
    LatestFound(v.store.jobs, v.store.order, d, "", l);
  }

  lemma SentByFinish(d: string, w: World, id: string, fs: seq<Finding>, k: int)
    requires Sound(w.store) && Enabled(d, w, Finish(id, fs)) && w.store.jobs[id].definitionId == d && d != ""
    requires LatestAt(w.store.jobs, w.store.order, d, "", k)
    ensures var prev := FindingsOf(w.store.findings, w.store.order[k]);
            var open, after := Replay(map[], w.sent), Replay(map[], Advance(d, w, Finish(id, fs)).sent);
            && (Mirrors(after, fs) <==> ReadyFor(open, prev, fs, fs))
            && (Mirrors(after, prev) <==> SetOf(Ids(prev)) == SetOf(Ids(fs)) && ReadyFor(open, prev, fs, prev))
  {
    hide DistinctIds, Export, Replay, Advance, Ids, ReadyFor, Mirrors, FindingsOf, Sound;
    var b := w.store.order[k];
    BaselineOfFinish(d, w, id, fs);
    PrevDistinct(w.store, b);
    var prev := FindingsOf(w.store.findings, b);
    ReplayConcat(map[], w.sent, Export(prev, fs, b));
    MirrorsExactlyWhen(Replay(map[], w.sent), prev, fs, b);
    MirrorsBaselineExactlyWhen(Replay(map[], w.sent), prev, fs, b);
  }

  lemma HistorySnoc(d: string, steps: seq<Step>, step: Step)
    ensures History(d, steps + [step]) == Advance(d, History(d, steps), step)
  {
    hide Advance;
    assert (steps + [step])[..|steps|] == steps;
  }

  // ----- a history in which it goes wrong -----

  function Queue(id: string, created: int): Job {
    Job(id, "", "", "d", "", "", Queued, created, ZERO_TIME, ZERO_TIME, "", NO_AUTHZ, [], [], 0, "", 0, 0, "")
  }

  /** Two runs of one definition: the later one finds `f` and finishes first, the earlier one finds nothing. */
  function Overlapping(f: Finding): seq<Step> {
    [Start(Queue("a", 1)), Start(Queue("b", 2)), Finish("b", [f]), Finish("a", [])]
  }

  lemma TwoStarted(f: Finding)
    ensures var w := History("d", [Start(Queue("a", 1)), Start(Queue("b", 2))]);
            w == BOTH_STARTED
    ensures Feasible("d", [Start(Queue("a", 1)), Start(Queue("b", 2))])
  {
    var one, two := [Start(Queue("a", 1))], [Start(Queue("a", 1)), Start(Queue("b", 2))];
    assert one[..0] == [] && two[..1] == one;
    assert History("d", []) == GENESIS && Feasible("d", []);
    assert History("d", one).store == MemState(map["a" := Queue("a", 1)], ["a"], map[], map[], []);
    assert History("d", two) == Advance("d", History("d", one), Start(Queue("b", 2)));
    assert map["a" := Queue("a", 1)]["b" := Queue("b", 2)] == map["a" := Queue("a", 1), "b" := Queue("b", 2)];
    assert ["a"] + ["b"] == ["a", "b"];
  }

  const BOTH_STARTED :=
    World(MemState(map["a" := Queue("a", 1), "b" := Queue("b", 2)], ["a", "b"], map[], map[], []), [])

  lemma BothStarted(f: Finding)
    ensures Sound(BOTH_STARTED.store) && Enabled("d", BOTH_STARTED, Finish("b", [f])) && Allowed(BOTH_STARTED, Finish("b", [f]))
    ensures NoRun(BOTH_STARTED.store.jobs, BOTH_STARTED.store.order, "d", "")
    ensures DistinctIds([f]) && DistinctIds([])
  {
  }

  lemma OneFinished(f: Finding)
    ensures var v := Advance("d", BOTH_STARTED, Finish("b", [f]));
            && Sound(v.store) && v.store.order == ["a", "b"] && v.store.findings.Keys == {"b"}
            && "a" in v.store.jobs && v.store.jobs["a"] == Queue("a", 1)
            && LatestAt(v.store.jobs, v.store.order, "d", "", 1) && FindingsOf(v.store.findings, "b") == [f]
            && Mirrors(Replay(map[], v.sent), [f])
  {
    hide Advance, Mirrors, Replay, Export, DistinctIds, FindingsOf, NoRun;
    var w := BOTH_STARTED;
    assert "a"[0] != "b"[0];
    BothStarted(f);
    FinishedStore("d", w, "b", [f]);
    BaselineOfFinish("d", w, "b", [f]);
    assert w.sent + Export([], [f], "") == Export([], [f], "");
    FirstRunOpensAll([f]);
    StoredElsewhere("d", w, "b", [f]);
  }

  lemma FirstFinished(f: Finding)
    ensures var steps := [Start(Queue("a", 1)), Start(Queue("b", 2)), Finish("b", [f])];
            var w := History("d", steps);
            && Feasible("d", steps) && Sound(w.store) && w.store.order == ["a", "b"]
            && LatestAt(w.store.jobs, w.store.order, "d", "", 1) && FindingsOf(w.store.findings, "b") == [f]
            && Allowed(w, Finish("a", [])) && w.store.jobs["a"].definitionId == "d"
            && Mirrors(Replay(map[], w.sent), [f])
  {
    hide Advance, History, Mirrors, Replay, DistinctIds, Sound, LatestAt, FindingsOf;
    var two := [Start(Queue("a", 1)), Start(Queue("b", 2))];
    var steps := [Start(Queue("a", 1)), Start(Queue("b", 2)), Finish("b", [f])];
    assert steps == two + [Finish("b", [f])] && steps[..2] == two;
    TwoStarted(f);
    HistorySnoc("d", two, Finish("b", [f]));
    BothStarted(f);
    OneFinished(f);
  }

  lemma StoredElsewhere(d: string, w: World, id: string, fs: seq<Finding>)
    requires Sound(w.store) && Enabled(d, w, Finish(id, fs))
    ensures Advance(d, w, Finish(id, fs)).store.findings.Keys == w.store.findings.Keys + {id}
  {
    hide DistinctIds, Advance, Recorded;
    RecordedStore(d, w, id, fs);
    AfterRecorded(d, w, id, fs);
  }

  /** The late finish closes `f` at the receiver although the latest run still has it. */
  lemma OverlapLosesAFinding(f: Finding)
    ensures Feasible("d", Overlapping(f))
    ensures var w := History("d", Overlapping(f));
            var latest := LastCompleted(w.store.jobs, w.store.order, "d", "");
            && latest.Some? && latest.value.id == "b" && FindingsOf(w.store.findings, "b") == [f]
            && Replay(map[], w.sent) == map[] && !Mirrors(Replay(map[], w.sent), [f])
  {
    hide Advance, History, Replay, Sound, Export, LatestAt, LastCompleted, Allowed;
    var steps := [Start(Queue("a", 1)), Start(Queue("b", 2)), Finish("b", [f])];
    FirstFinished(f);
    var w := History("d", steps);
    assert Overlapping(f) == steps + [Finish("a", [])] && Overlapping(f)[..3] == steps;
    HistorySnoc("d", steps, Finish("a", []));
    assert Enabled("d", w, Finish("a", [])) by { AllowedFinish("d", w, "a", []); }
    LateFinishShowsTheOlderRun("d", w, "a", [], 0, 1);
    assert Ids([]) == [] && SetOf<string>([]) == {};
  }

  lemma AllowedFinish(d: string, w: World, id: string, fs: seq<Finding>)
    requires Allowed(w, Finish(id, fs))
    ensures Enabled(d, w, Finish(id, fs))
  {
  }
}
