/** Runs in which the process dies: at any step of a write the file store is opened again, and from there on it
    answers as a reference store that sorts its lists at every restart. */
module StoreCrash {
  import opened Text
  import opened Ordering
  import opened Findings
  import opened Records
  import opened Correlate
  import opened Store
  import opened StoreProofs
  import opened StoreReopen

  // ----- what a crash leaves on disk -----

  /** The steps an accepted operation takes in each directory. */
  datatype Work = Work(jobs: seq<Primitive>, findings: seq<Primitive>, definitions: seq<Primitive>)

  const IDLE := Work([], [], [])

  function WorkOf(f: FileState, op: Op, tmp: string): Work {
    if FileStep(f, op, true).1 != Ack then IDLE
    else match op
      case CreateJob(j) => IDLE.(jobs := WriteSteps(FileName(j.id), tmp, JobDocument(j)))
      case UpdateJob(j) => IDLE.(jobs := WriteSteps(FileName(j.id), tmp, JobDocument(j)))
      case AddFindings(id, fs) =>
        IDLE.(findings := WriteSteps(FileName(id), tmp, FindingsDocument(StripAll(FoldIn(ReadFindings(f.disk, id), fs)))))
      case CreateDefinition(d) => IDLE.(definitions := WriteSteps(FileName(d.id), tmp, DefinitionDocument(d)))
      case UpdateDefinition(d) => IDLE.(definitions := WriteSteps(FileName(d.id), tmp, DefinitionDocument(d)))
      case DeleteDefinition(id) => IDLE.(definitions := [Remove(FileName(id))])
      case _ => IDLE
  }

  function Steps(w: Work): nat { |w.jobs| + |w.findings| + |w.definitions| }

  function Cut(ps: seq<Primitive>, k: nat): seq<Primitive> {
    if k <= |ps| then ps[..k] else ps
  }

  /** The disk after `k` steps of the work; at most one directory has any. */
  function CrashDisk(d: Disk, w: Work, k: nat): Disk {
    Disk(Applied(d.jobs, Cut(w.jobs, k)), Applied(d.findings, Cut(w.findings, k)), Applied(d.definitions, Cut(w.definitions, k)))
  }

  /** A name for a temporary file: nobody has it and no load looks at it. */
  predicate Spare(d: Disk, tmp: string) {
    tmp !in d.jobs && tmp !in d.findings && tmp !in d.definitions && !IsDocumentName(tmp)
  }

  ghost predicate SameToLoad(d: Disk, e: Disk) {
    Visible(d.jobs) == Visible(e.jobs) && Visible(d.findings) == Visible(e.findings)
    && Visible(d.definitions) == Visible(e.definitions)
  }

  lemma NothingApplied(dir: Directory, k: nat)
    ensures Applied(dir, Cut([], k)) == dir && Cut([], k) == []
  {
  }

  lemma WriteCut(dir: Directory, name: string, tmp: string, doc: Document, k: nat)
    requires tmp !in dir && !IsDocumentName(tmp) && IsDocumentName(name)
    ensures Visible(Applied(dir, Cut(WriteSteps(name, tmp, doc), k))) == if k < 3 then Visible(dir) else Visible(dir[name := doc])
  {
    hide Applied, IsDocumentName;
    var ps := WriteSteps(name, tmp, doc);
    CrashShowsOldOrNew(dir, name, tmp, doc, if k < 3 then k else 3);
    assert ps[..3] == ps;
  }

  lemma RemoveCut(dir: Directory, name: string, k: nat)
    ensures Applied(dir, Cut([Remove(name)], k)) == if k == 0 then dir else dir - {name}
  {
    assert [Remove(name)][..0] == [] && [Remove(name)][..1] == [Remove(name)] && [Remove(name)][1..] == [];
  }

  /** A load after a crash sees the disk of the last completed operation until the work is done, and then that of
      the operation itself. */
  lemma CrashIsBeforeOrAfter(f: FileState, op: Op, tmp: string, k: nat)
    requires Spare(f.disk, tmp)
    ensures var w := WorkOf(f, op, tmp);
            var t := if k < Steps(w) then f else FileStep(f, op, true).0;
            SameToLoad(CrashDisk(f.disk, w, k), t.disk)
  {
    hide FoldIn, SafeId, JobsListed, DefinitionsListed, LastCompleted, Active, Without, Applied, Cut, StripAll, ReadFindings;
    var w := WorkOf(f, op, tmp);
    NothingApplied(f.disk.jobs, k);
    NothingApplied(f.disk.findings, k);
    NothingApplied(f.disk.definitions, k);
    if w != IDLE {
      match op {
        case CreateJob(j) => DocumentName(j.id); WriteCut(f.disk.jobs, FileName(j.id), tmp, JobDocument(j), k);
        case UpdateJob(j) => DocumentName(j.id); WriteCut(f.disk.jobs, FileName(j.id), tmp, JobDocument(j), k);
        case AddFindings(id, fs) =>
          DocumentName(id);
          WriteCut(f.disk.findings, FileName(id), tmp, FindingsDocument(StripAll(FoldIn(ReadFindings(f.disk, id), fs))), k);
        case CreateDefinition(d) => DocumentName(d.id); WriteCut(f.disk.definitions, FileName(d.id), tmp, DefinitionDocument(d), k);
        case UpdateDefinition(d) => DocumentName(d.id); WriteCut(f.disk.definitions, FileName(d.id), tmp, DefinitionDocument(d), k);
        case DeleteDefinition(id) => RemoveCut(f.disk.definitions, FileName(id), k);
        case _ =>
      }
    }
  }

  // ----- opening again -----

  /** The reference for a restart: the same records, with the lists sorted by creation time, then identifier. */
  ghost function Restarted(m: MemState): MemState
    requires Listed(m)
  {
    m.(order := MapSeq(JobIdOf, SortBy(JobBefore, InOrder(m.jobs, m.order))),
       defOrder := MapSeq(DefinitionIdOf, SortBy(DefinitionBefore, InOrder(m.defs, m.defOrder))))
  }

  ghost predicate Listed(m: MemState) {
    (forall id :: id in m.order ==> id in m.jobs) && (forall id :: id in m.defOrder ==> id in m.defs)
  }

  /** The listings of the directories a load goes through. */
  ghost predicate ListingsOf(d: Disk, jobNames: seq<string>, definitionNames: seq<string>) {
    Lists(jobNames, d.jobs) && Lists(definitionNames, d.definitions)
  }

  lemma SameDocuments(a: Directory, b: Directory)
    requires Visible(a) == Visible(b)
    ensures forall name :: IsDocumentName(name) ==> (name in a <==> name in b)
    ensures forall name :: IsDocumentName(name) && name in a ==> a[name] == b[name]
  {
    hide IsDocumentName;
    forall name | IsDocumentName(name) ensures (name in a <==> name in b) && (name in a ==> a[name] == b[name]) {
      assert name in Visible(a) <==> name in a;
      assert name in Visible(b) <==> name in b;
      if name in a {
        assert Visible(a)[name] == a[name] && Visible(b)[name] == b[name];
      }
    }
  }

  lemma JobDocsToLoad(jobs: map<string, Job>, a: Directory, b: Directory)
    requires JobDocs(jobs, b) && Visible(a) == Visible(b)
    ensures JobDocs(jobs, a)
  {
    SameDocuments(a, b);
    hide SafeId, FileName, IsDocumentName, Visible;
    forall id ensures IsDocumentName(FileName(id)) { DocumentName(id); }
  }

  lemma DefinitionDocsToLoad(defs: map<string, Definition>, a: Directory, b: Directory)
    requires DefinitionDocs(defs, b) && Visible(a) == Visible(b)
    ensures DefinitionDocs(defs, a)
  {
    SameDocuments(a, b);
    hide SafeId, FileName, IsDocumentName, Visible;
    forall id ensures IsDocumentName(FileName(id)) { DocumentName(id); }
  }

  lemma CoherentToLoad(f: FileState, d: Disk)
    requires Coherent(f) && SameToLoad(d, f.disk)
    ensures Coherent(f.(disk := d)) && forall id :: ReadFindings(d, id) == ReadFindings(f.disk, id)
  {
    hide JobDocs, DefinitionDocs, Visible, IsDocumentName, FileName;
    JobDocsToLoad(f.jobs, d.jobs, f.disk.jobs);
    DefinitionDocsToLoad(f.defs, d.definitions, f.disk.definitions);
    SameDocuments(d.findings, f.disk.findings);
    forall id ensures ReadFindings(d, id) == ReadFindings(f.disk, id) { DocumentName(id); }
  }

  lemma ListedWhenRefined(m: MemState, f: FileState)
    requires Refines(m, f)
    ensures Listed(m)
  {
    hide SafeId, FileName, JobDocs, DefinitionDocs, FindingsAgree;
  }

  /** What opening restores, from any disk that looks the same to a load. */
  lemma Reopened(f: FileState, d: Disk, jobNames: seq<string>, definitionNames: seq<string>)
    requires Coherent(f) && SameToLoad(d, f.disk) && ListingsOf(d, jobNames, definitionNames)
    ensures Lists(f.order, f.jobs) && Lists(f.defOrder, f.defs)
    ensures var g := Reopen(d, jobNames, definitionNames);
            && g.jobs == f.jobs && g.defs == f.defs && g.disk == d
            && g.order == MapSeq(JobIdOf, SortBy(JobBefore, InOrder(f.jobs, f.order))) && Lists(g.order, f.jobs)
            && g.defOrder == MapSeq(DefinitionIdOf, SortBy(DefinitionBefore, InOrder(f.defs, f.defOrder))) && Lists(g.defOrder, f.defs)
            && (g.order == f.order && g.defOrder == f.defOrder <==> CreatedInOrder(f))
  {
    hide SortBy, Collect, SafeId, FileName, Sorted, IndexBy, JobBefore, DefinitionBefore, SameToLoad, Coherent, Holds;
    CoherentToLoad(f, d);
    JobBeforeOrder();
    DefinitionBeforeOrder();
    JobsHeld(f);
    JobsHeld(f.(disk := d));
    ReloadOne(JobIdOf, PickJob, JobBefore, f.jobs, f.order, d.jobs, jobNames);
    ReloadOne(DefinitionIdOf, PickDefinition, DefinitionBefore, f.defs, f.defOrder, d.definitions, definitionNames);
  }

  lemma StillCoherent(f: FileState, g: FileState)
    requires Coherent(f) && g.jobs == f.jobs && g.defs == f.defs && g.disk == f.disk
    requires Lists(g.order, f.jobs) && Lists(g.defOrder, f.defs)
    ensures Coherent(g)
  {
    hide JobDocs, DefinitionDocs;
  }

  lemma StillAgree(m: MemState, f: FileState, n: MemState, g: FileState)
    requires FindingsAgree(m, f) && n.findings == m.findings && n.jobs == m.jobs
    requires forall id :: ReadFindings(g.disk, id) == ReadFindings(f.disk, id)
    ensures FindingsAgree(n, g)
  {
    hide ReadFindings, FindingsOf, StripAll, DistinctIds;
  }

  /** Opened on any disk that looks the same to a load, the file store stands where the restarted reference does;
      the restart changes nothing exactly when records were created in order. */
  lemma ReopenRefines(m: MemState, f: FileState, d: Disk, jobNames: seq<string>, definitionNames: seq<string>)
    requires Refines(m, f) && SameToLoad(d, f.disk) && ListingsOf(d, jobNames, definitionNames)
    ensures Listed(m) && Refines(Restarted(m), Reopen(d, jobNames, definitionNames))
    ensures Restarted(m) == m <==> CreatedInOrder(f)
  {
    hide Coherent, FindingsAgree, SortBy, Reopen, SameToLoad, ListingsOf, Lists, CreatedInOrder, InOrder, MapSeq, ReadFindings;
    ListedWhenRefined(m, f);
    Reopened(f, d, jobNames, definitionNames);
    CoherentToLoad(f, d);
    var g := Reopen(d, jobNames, definitionNames);
    StillCoherent(f.(disk := d), g);
    StillAgree(m, f, Restarted(m), g);
  }

  // ----- whole runs -----

  datatype Event =
    | Do(op: Op, io: bool)
    | Restart(jobNames: seq<string>, definitionNames: seq<string>)
    | Die(op: Op, tmp: string, k: nat, jobNames: seq<string>, definitionNames: seq<string>)

  function FileAfter(f: FileState, e: Event): FileState {
    match e
    case Do(op, io) => FileStep(f, op, io).0
    case Restart(js, ds) => Reopen(f.disk, js, ds)
    case Die(op, tmp, k, js, ds) => Reopen(CrashDisk(f.disk, WorkOf(f, op, tmp), k), js, ds)
  }

  /** The reference: an operation that dies has either not happened or happened, and every restart sorts. */
  ghost function MemAfter(m: MemState, f: FileState, e: Event): MemState
    requires Refines(m, f)
  {
    ListedWhenRefined(m, f);
    match e
    case Do(op, io) => FaultyStep(m, op, io).0
    case Restart(_, _) => Restarted(m)
    case Die(op, tmp, k, _, _) =>
      if k < Steps(WorkOf(f, op, tmp)) || !SafeOp(op) then Restarted(m)
      else
        FileRefinesMem(m, f, op, true);
        ListedWhenRefined(MemStep(m, op).0, FileStep(f, op, true).0);
        Restarted(MemStep(m, op).0)
  }

  /** Operations have safe identifiers, temporary names are spare, and a load lists its directories in full. */
  ghost predicate Proper(f: FileState, e: Event) {
    match e
    case Do(op, _) => SafeOp(op)
    case Restart(js, ds) => ListingsOf(f.disk, js, ds)
    case Die(op, tmp, k, js, ds) =>
      SafeOp(op) && Spare(f.disk, tmp) && ListingsOf(CrashDisk(f.disk, WorkOf(f, op, tmp), k), js, ds)
  }

  lemma AfterRefines(m: MemState, f: FileState, e: Event)
    requires Refines(m, f) && Proper(f, e)
    ensures Refines(MemAfter(m, f, e), FileAfter(f, e))
    ensures e.Do? ==> SameAnswer(FaultyStep(m, e.op, e.io).1, FileStep(f, e.op, e.io).1)
  {
    hide Refines, FaultyStep, FileStep, MemStep, Reopen, WorkOf, CrashDisk, SafeOp, SameToLoad, SameAnswer, Restarted;
    match e {
      case Do(op, io) => FileRefinesMem(m, f, op, io);
      case Restart(js, ds) =>
        SameAsItself(f.disk);
        ReopenRefines(m, f, f.disk, js, ds);
      case Die(op, tmp, k, js, ds) =>
        CrashIsBeforeOrAfter(f, op, tmp, k);
        if k < Steps(WorkOf(f, op, tmp)) {
          ReopenRefines(m, f, CrashDisk(f.disk, WorkOf(f, op, tmp), k), js, ds);
        } else {
          FileRefinesMem(m, f, op, true);
          NoFault(m, op);
          ReopenRefines(MemStep(m, op).0, FileStep(f, op, true).0, CrashDisk(f.disk, WorkOf(f, op, tmp), k), js, ds);
        }
    }
  }

  lemma SameAsItself(d: Disk)
    ensures SameToLoad(d, d)
  {
  }

  lemma NoFault(m: MemState, op: Op)
    ensures FaultyStep(m, op, true) == MemStep(m, op)
  {
    hide MemStep;
  }

  /** The states of both stores before each event and after the last, as far as the events are proper. */
  ghost predicate History(es: seq<Event>, ms: seq<MemState>, fs: seq<FileState>) {
    && |ms| == |fs| == |es| + 1 && ms[0] == EMPTY_MEM && fs[0] == EMPTY_FILE
    && forall i :: 0 <= i < |es| ==>
         Proper(fs[i], es[i]) && fs[i + 1] == FileAfter(fs[i], es[i])
         && (Refines(ms[i], fs[i]) ==> ms[i + 1] == MemAfter(ms[i], fs[i], es[i]))
  }

  /** Over every history of operations, failing writes, crashes at any step and restarts: cache and disk agree, the
      answers are those of the reference, and the reference loses no more than the operation that died. */
  lemma {:induction false} BackendsAgreeAcrossRestarts(es: seq<Event>, ms: seq<MemState>, fs: seq<FileState>, i: nat)
    requires History(es, ms, fs) && i <= |es|
    ensures Refines(ms[i], fs[i]) && Coherent(fs[i])
    ensures i < |es| && es[i].Do? ==> SameAnswer(FaultyStep(ms[i], es[i].op, es[i].io).1, FileStep(fs[i], es[i].op, es[i].io).1)
  {
    hide Refines, FileAfter, MemAfter, Proper, FaultyStep, FileStep, SameAnswer;
    if i == 0 {
      StartRefines();
    } else {
      BackendsAgreeAcrossRestarts(es, ms, fs, i - 1);
      AfterRefines(ms[i - 1], fs[i - 1], es[i - 1]);
    }
    RefinesIsCoherent(ms[i], fs[i]);
    if i < |es| {
      AfterRefines(ms[i], fs[i], es[i]);
    }
  }
}
