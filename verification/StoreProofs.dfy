/** The file store answers as the reference store does, faults included; its cache and its disk agree after
    every operation; and reopening restores it exactly when records were created in order. */
module StoreProofs {
  import opened Text
  import opened Ordering
  import opened Findings
  import opened Records
  import opened Correlate
  import opened Store

  // ----- the unserialised signature does not influence merging -----

  lemma StripMerge(f: Finding, other: Finding)
    ensures Strip(MergeFinding(f, other)) == MergeFinding(Strip(f), other)
    ensures Strip(MergeFinding(f, other)) == MergeFinding(Strip(f), Strip(other))
  {
    hide MergeUnique, HigherConfidence;
    assert BringsNewTool(f, other) == BringsNewTool(Strip(f), other) == BringsNewTool(Strip(f), Strip(other));
  }

  lemma {:induction false} StripIndex(acc: seq<Finding>, id: string)
    ensures IndexOf(StripAll(acc), id) == IndexOf(acc, id)
  {
    if acc != [] {
      StripIndex(acc[1..], id);
      assert StripAll(acc)[1..] == StripAll(acc[1..]);
    }
  }

  lemma StripFoldOne(acc: seq<Finding>, f: Finding)
    ensures StripAll(FoldOne(acc, f)) == StripAll(FoldOne(StripAll(acc), f))
  {
    hide MergeFinding;
    StripIndex(acc, f.id);
    var i := IndexOf(acc, f.id);
    if i < |acc| {
      StripMerge(acc[i], f);
      StripMerge(Strip(acc[i]), f);
      assert Strip(Strip(acc[i])) == Strip(acc[i]);
    }
    var a, b := StripAll(FoldOne(acc, f)), StripAll(FoldOne(StripAll(acc), f));
    assert |a| == |b|;
    assert forall k :: 0 <= k < |a| ==> a[k] == b[k];
  }

  lemma {:induction false} StripFoldIn(acc: seq<Finding>, fs: seq<Finding>)
    ensures StripAll(FoldIn(acc, fs)) == StripAll(FoldIn(StripAll(acc), fs))
  {
    hide FoldOne, StripAll;
    if fs == [] {
      StripTwice(acc);
    } else {
      var n := |fs| - 1;
      var x, y := FoldIn(acc, fs[..n]), FoldIn(StripAll(acc), fs[..n]);
      StripFoldIn(acc, fs[..n]);
      StripFoldOne(x, fs[n]);
      StripFoldOne(y, fs[n]);
    }
  }

  lemma StripTwice(fs: seq<Finding>)
    ensures StripAll(StripAll(fs)) == StripAll(fs)
  {
  }

  // ----- the refinement relation -----

  ghost predicate JobDocs(jobs: map<string, Job>, dir: Directory) {
    && (forall id :: id in jobs ==> SafeId(id) && jobs[id].id == id)
    && (forall id :: id in jobs ==> FileName(id) in dir && dir[FileName(id)] == JobDocument(jobs[id]))
    && (forall name :: name in dir && IsDocumentName(name) ==> exists id :: id in jobs && FileName(id) == name)
  }

  ghost predicate JobsOnDisk(f: FileState) {
    JobDocs(f.jobs, f.disk.jobs) && NoDuplicates(f.order) && (forall id :: id in f.order <==> id in f.jobs)
  }

  ghost predicate DefinitionDocs(defs: map<string, Definition>, dir: Directory) {
    && (forall id :: id in defs ==> SafeId(id) && defs[id].id == id)
    && (forall id :: id in defs ==> FileName(id) in dir && dir[FileName(id)] == DefinitionDocument(defs[id]))
    && (forall name :: name in dir && IsDocumentName(name) ==> exists id :: id in defs && FileName(id) == name)
  }

  ghost predicate DefinitionsOnDisk(f: FileState) {
    && DefinitionDocs(f.defs, f.disk.definitions)
    && NoDuplicates(f.defOrder) && (forall id :: id in f.defOrder <==> id in f.defs)
  }

  /** Cache and disk hold the same records; temporary files a crash left behind do not matter. */
  ghost predicate Coherent(f: FileState) {
    JobsOnDisk(f) && DefinitionsOnDisk(f)
  }

  ghost predicate FindingsAgree(m: MemState, f: FileState) {
    && (forall id :: StripAll(FindingsOf(m.findings, id)) == ReadFindings(f.disk, id))
    && (forall id :: id in m.findings ==> id in m.jobs && DistinctIds(m.findings[id]))
  }

  ghost predicate Refines(m: MemState, f: FileState) {
    && m.jobs == f.jobs && m.order == f.order && m.defs == f.defs && m.defOrder == f.defOrder
    && Coherent(f) && FindingsAgree(m, f)
  }

  predicate SameAnswer(a: Answer, b: Answer) {
    if a.SomeFindings? then b.SomeFindings? && StripAll(a.findings) == b.findings else a == b
  }

  predicate SafeOp(op: Op) {
    match op
    case CreateJob(j) => SafeId(j.id)
    case UpdateJob(j) => SafeId(j.id)
    case AddFindings(id, _) => SafeId(id)
    case CreateDefinition(d) => SafeId(d.id)
    case UpdateDefinition(d) => SafeId(d.id)
    case DeleteDefinition(id) => SafeId(id)
    case _ => true
  }

  predicate UsesDisk(op: Op) {
    match op
    case GetJob(_) => false
    case ListJobs(_) => false
    case ActiveJobs => false
    case GetDefinition(_) => false
    case ListDefinitions(_) => false
    case LastCompletedJob(_, _) => false
    case _ => true
  }

  /** The reference store behind a disk that may fail: an operation it would have accepted is refused,
      and nothing changes. */
  function FaultyStep(m: MemState, op: Op, io: bool): (MemState, Answer) {
    var r := MemStep(m, op);
    if io || !UsesDisk(op) || r.1.Refuse? then r else (m, Refuse(Io))
  }

  lemma StartRefines()
    ensures Refines(EMPTY_MEM, EMPTY_FILE)
  {
  }

  lemma PutJobDocs(jobs: map<string, Job>, dir: Directory, j: Job)
    requires JobDocs(jobs, dir) && SafeId(j.id)
    ensures JobDocs(jobs[j.id := j], dir[FileName(j.id) := JobDocument(j)])
  {
    hide SafeId, FileName;
    var dir', jobs' := dir[FileName(j.id) := JobDocument(j)], jobs[j.id := j];
    forall id | id in jobs' ensures FileName(id) in dir' && dir'[FileName(id)] == JobDocument(jobs'[id]) {
      if FileName(id) == FileName(j.id) {
        FileNameInjective(id, j.id);
      }
    }
    forall name | name in dir' && IsDocumentName(name) ensures exists id :: id in jobs' && FileName(id) == name {
      if name == FileName(j.id) {
        assert j.id in jobs';
      } else {
        var id :| id in jobs && FileName(id) == name;
        assert id in jobs';
      }
    }
  }

  lemma PutJobOnDisk(f: FileState, j: Job, order: seq<string>)
    requires JobsOnDisk(f) && SafeId(j.id)
    requires order == if j.id in f.jobs then f.order else f.order + [j.id]
    ensures JobsOnDisk(f.(disk := f.disk.(jobs := f.disk.jobs[FileName(j.id) := JobDocument(j)]),
                          jobs := f.jobs[j.id := j], order := order))
  {
    hide SafeId, FileName, JobDocs;
    PutJobDocs(f.jobs, f.disk.jobs, j);
  }

  lemma PutDefinitionOnDisk(f: FileState, d: Definition, order: seq<string>)
    requires DefinitionsOnDisk(f) && SafeId(d.id)
    requires order == if d.id in f.defs then f.defOrder else f.defOrder + [d.id]
    ensures DefinitionsOnDisk(f.(disk := f.disk.(definitions := f.disk.definitions[FileName(d.id) := DefinitionDocument(d)]),
                                 defs := f.defs[d.id := d], defOrder := order))
  {
    hide SafeId, FileName;
    var g := f.(disk := f.disk.(definitions := f.disk.definitions[FileName(d.id) := DefinitionDocument(d)]),
                defs := f.defs[d.id := d], defOrder := order);
    forall id | id in g.defs
      ensures FileName(id) in g.disk.definitions && g.disk.definitions[FileName(id)] == DefinitionDocument(g.defs[id]) {
      if FileName(id) == FileName(d.id) {
        FileNameInjective(id, d.id);
      }
    }
    forall name | name in g.disk.definitions && IsDocumentName(name) ensures exists id :: id in g.defs && FileName(id) == name {
      if name == FileName(d.id) {
        assert d.id in g.defs;
      } else {
        var id :| id in f.defs && FileName(id) == name;
        assert id in g.defs;
      }
    }
  }

  lemma DropDocument(defs: map<string, Definition>, dir: Directory, x: string)
    requires DefinitionDocs(defs, dir) && x in defs
    ensures DefinitionDocs(defs - {x}, dir - {FileName(x)})
  {
    hide SafeId, FileName;
    var defs', dir' := defs - {x}, dir - {FileName(x)};
    forall id | id in defs' ensures FileName(id) in dir' && dir'[FileName(id)] == DefinitionDocument(defs'[id]) {
      if FileName(id) == FileName(x) {
        FileNameInjective(id, x);
      }
    }
    forall name | name in dir' && IsDocumentName(name) ensures exists id :: id in defs' && FileName(id) == name {
      var id :| id in defs && FileName(id) == name;
      assert id in defs';
    }
  }

  lemma DropDefinitionFromDisk(f: FileState, x: string)
    requires DefinitionsOnDisk(f) && x in f.defs
    ensures DefinitionsOnDisk(f.(disk := f.disk.(definitions := f.disk.definitions - {FileName(x)}),
                                 defs := f.defs - {x}, defOrder := Without(f.defOrder, x)))
  {
    hide DefinitionDocs, Without, FileName;
    DropDocument(f.defs, f.disk.definitions, x);
    WithoutMembers(f.defOrder, x);
  }

  lemma AddFindingsRefines(m: MemState, f: FileState, id: string, fs: seq<Finding>)
    requires Refines(m, f) && SafeId(id) && id in m.jobs
    ensures Refines(MemStep(m, AddFindings(id, fs)).0, FileStep(f, AddFindings(id, fs), true).0)
  {
    hide Coherent, StripAll, FoldIn, SafeId;
    var had, read := FindingsOf(m.findings, id), ReadFindings(f.disk, id);
    var m' := MemStep(m, AddFindings(id, fs)).0;
    var f' := FileStep(f, AddFindings(id, fs), true).0;
    assert DistinctIds(had);
    FoldInIds(had, fs);
    StripFoldIn(had, fs);
    CoherentIgnoresFindings(f, f'.disk.findings);
    forall x ensures StripAll(FindingsOf(m'.findings, x)) == ReadFindings(f'.disk, x) {
      if x == id {
        assert FindingsOf(m'.findings, x) == FoldIn(had, fs);
      } else {
        if FileName(x) == FileName(id) {
          FileNameInjective(x, id);
        }
        assert StripAll(FindingsOf(m.findings, x)) == ReadFindings(f.disk, x);
      }
    }
  }

  lemma CoherentIgnoresFindings(f: FileState, d: Directory)
    requires Coherent(f)
    ensures Coherent(f.(disk := f.disk.(findings := d)))
  {
    hide SafeId, FileName;
  }

  ghost predicate StepRefines(m: MemState, f: FileState, op: Op, io: bool) {
    && Refines(FaultyStep(m, op, io).0, FileStep(f, op, io).0)
    && SameAnswer(FaultyStep(m, op, io).1, FileStep(f, op, io).1)
    && (FileStep(f, op, io).1 == Refuse(Io) ==> FileStep(f, op, io).0 == f)
  }

  lemma JobWriteRefines(m: MemState, f: FileState, op: Op)
    requires Refines(m, f) && SafeOp(op)
    requires (op.CreateJob? && op.j.id !in f.jobs) || (op.UpdateJob? && op.j.id in f.jobs)
    ensures StepRefines(m, f, op, true)
  {
    hide StripAll, SafeId, FileName, DefinitionsOnDisk, JobsOnDisk, ReadFindings;
    var order := if op.CreateJob? then f.order + [op.j.id] else f.order;
    PutJobOnDisk(f, op.j, order);
    DefinitionsIgnoreJobs(f, FileStep(f, op, true).0);
    ReadsIgnoreJobs(f, FileStep(f, op, true).0);
  }

  lemma DefinitionWriteRefines(m: MemState, f: FileState, op: Op)
    requires Refines(m, f) && SafeOp(op)
    requires (op.CreateDefinition? && op.d.id !in f.defs) || (op.UpdateDefinition? && op.d.id in f.defs)
    ensures StepRefines(m, f, op, true)
  {
    hide StripAll, SafeId, FileName, DefinitionsOnDisk, JobsOnDisk, ReadFindings;
    var order := if op.CreateDefinition? then f.defOrder + [op.d.id] else f.defOrder;
    PutDefinitionOnDisk(f, op.d, order);
    JobsIgnoreDefinitions(f, FileStep(f, op, true).0);
    ReadsIgnoreJobs(f, FileStep(f, op, true).0);
  }

  lemma DeleteRefines(m: MemState, f: FileState, op: Op)
    requires Refines(m, f) && SafeOp(op)
    requires op.DeleteDefinition? && op.id in f.defs
    ensures StepRefines(m, f, op, true)
  {
    hide StripAll, SafeId, FileName, DefinitionsOnDisk, JobsOnDisk, Without, ReadFindings;
    DropDefinitionFromDisk(f, op.id);
    JobsIgnoreDefinitions(f, FileStep(f, op, true).0);
    ReadsIgnoreJobs(f, FileStep(f, op, true).0);
  }

  lemma ReadsIgnoreJobs(f: FileState, g: FileState)
    requires g.disk.findings == f.disk.findings
    ensures forall id :: ReadFindings(g.disk, id) == ReadFindings(f.disk, id)
  {
    hide FileName;
  }

  /** Operations that are refused or only read. */
  lemma QuietStepRefines(m: MemState, f: FileState, op: Op, io: bool)
    requires Refines(m, f) && SafeOp(op)
    requires !io || !UsesDisk(op) || MemStep(m, op).1.Refuse? || op.GetFindings?
    ensures StepRefines(m, f, op, io)
  {
    hide StripAll, SafeId, Coherent, FoldIn, JobsListed, DefinitionsListed, LastCompleted, Active, Without, ReadFindings, FindingsOf;
  }

  /** One operation: the file store gives the reference store's answer and the relation holds again. A
      failing disk changes neither cache nor disk. */
  lemma FileRefinesMem(m: MemState, f: FileState, op: Op, io: bool)
    requires Refines(m, f) && SafeOp(op)
    ensures Refines(FaultyStep(m, op, io).0, FileStep(f, op, io).0)
    ensures SameAnswer(FaultyStep(m, op, io).1, FileStep(f, op, io).1)
    ensures FileStep(f, op, io).1 == Refuse(Io) ==> FileStep(f, op, io).0 == f
  {
    assert StepRefines(m, f, op, io) by {
      hide Coherent, FindingsAgree, StepRefines, FileStep, SafeOp;
      if !io || !UsesDisk(op) || MemStep(m, op).1.Refuse? {
        QuietStepRefines(m, f, op, io);
      } else {
        match op {
          case CreateJob(_) => JobWriteRefines(m, f, op);
          case UpdateJob(_) => JobWriteRefines(m, f, op);
          case AddFindings(id, fs) => AddFindingsStep(m, f, id, fs);
          case GetFindings(_) => QuietStepRefines(m, f, op, io);
          case CreateDefinition(_) => DefinitionWriteRefines(m, f, op);
          case UpdateDefinition(_) => DefinitionWriteRefines(m, f, op);
          case DeleteDefinition(_) => DeleteRefines(m, f, op);
        }
      }
    }
    hide Refines, SameAnswer, FaultyStep, FileStep;
  }

  lemma AddFindingsStep(m: MemState, f: FileState, id: string, fs: seq<Finding>)
    requires Refines(m, f) && SafeId(id) && id in m.jobs
    ensures StepRefines(m, f, AddFindings(id, fs), true)
  {
    AddFindingsRefines(m, f, id, fs);
    RefinesSameJobs(m, f);
    AddFindingsMeans(m, id, fs);
    AddFindingsAcknowledged(f, id, fs);
    hide Refines, FileStep, MemStep;
  }

  lemma AddFindingsAcknowledged(f: FileState, id: string, fs: seq<Finding>)
    requires SafeId(id) && id in f.jobs
    ensures FileStep(f, AddFindings(id, fs), true).1 == Ack
  {
    hide FoldIn, StripAll, SafeId;
  }

  lemma RefinesSameJobs(m: MemState, f: FileState)
    requires Refines(m, f)
    ensures m.jobs == f.jobs
  {
  }

  lemma DefinitionsIgnoreJobs(f: FileState, g: FileState)
    requires DefinitionsOnDisk(f)
    requires g.defs == f.defs && g.defOrder == f.defOrder && g.disk.definitions == f.disk.definitions
    ensures DefinitionsOnDisk(g)
  {
    hide SafeId, FileName;
  }

  lemma JobsIgnoreDefinitions(f: FileState, g: FileState)
    requires JobsOnDisk(f)
    requires g.jobs == f.jobs && g.order == f.order && g.disk.jobs == f.disk.jobs
    ensures JobsOnDisk(g)
  {
    hide SafeId, FileName;
  }

  // ----- whole runs -----

  datatype Attempt = Attempt(op: Op, io: bool)

  function MemRun(m: MemState, ops: seq<Attempt>): (MemState, seq<Answer>) {
    if ops == [] then (m, [])
    else
      var before := MemRun(m, ops[..|ops| - 1]);
      var last := ops[|ops| - 1];
      var r := FaultyStep(before.0, last.op, last.io);
      (r.0, before.1 + [r.1])
  }

  function FileRun(f: FileState, ops: seq<Attempt>): (FileState, seq<Answer>) {
    if ops == [] then (f, [])
    else
      var before := FileRun(f, ops[..|ops| - 1]);
      var last := ops[|ops| - 1];
      var r := FileStep(before.0, last.op, last.io);
      (r.0, before.1 + [r.1])
  }

  /** Over every sequence of operations with safe identifiers and every pattern of disk failures, the two
      backends give the same answers, and cache and disk agree at the end. */
  lemma {:induction false} BackendsAgree(ops: seq<Attempt>)
    requires forall a :: a in ops ==> SafeOp(a.op)
    ensures var m, f := MemRun(EMPTY_MEM, ops), FileRun(EMPTY_FILE, ops);
            && Refines(m.0, f.0) && Coherent(f.0)
            && |m.1| == |f.1| == |ops|
            && forall i :: 0 <= i < |ops| ==> SameAnswer(m.1[i], f.1[i])
  {
    hide Refines, FaultyStep, FileStep, SameAnswer, SafeOp, Coherent;
    if ops == [] {
      StartRefines();
      RefinesIsCoherent(EMPTY_MEM, EMPTY_FILE);
    } else {
      var n := |ops| - 1;
      SplitLast(ops);
      BackendsAgree(ops[..n]);
      var m, f := MemRun(EMPTY_MEM, ops[..n]).0, FileRun(EMPTY_FILE, ops[..n]).0;
      FileRefinesMem(m, f, ops[n].op, ops[n].io);
      RefinesIsCoherent(FaultyStep(m, ops[n].op, ops[n].io).0, FileStep(f, ops[n].op, ops[n].io).0);
    }
  }

  lemma RefinesIsCoherent(m: MemState, f: FileState)
    requires Refines(m, f)
    ensures Coherent(f)
  {
    hide Coherent;
  }
}
