/** internal/store: the two backends as state machines. `Mem` is the reference; `File` keeps a cache of jobs
    and definitions and one document per record on disk. Each operation is one atomic step. */
module Store {
  import opened Text
  import opened Ordering
  import opened Findings
  import opened Records
  import opened Correlate

  datatype Error = NotFound | Duplicate | UnsafeId | Io

  datatype Answer =
    | Ack
    | Refuse(error: Error)
    | OneJob(job: Job)
    | ManyJobs(jobs: seq<Job>)
    | SomeFindings(findings: seq<Finding>)
    | Number(n: nat)
    | OneDefinition(definition: Definition)
    | ManyDefinitions(definitions: seq<Definition>)

  datatype Op =
    | CreateJob(j: Job)
    | UpdateJob(j: Job)
    | GetJob(id: string)
    | ListJobs(workspace: string)
    | AddFindings(id: string, fs: seq<Finding>)
    | GetFindings(id: string)
    | ActiveJobs
    | CreateDefinition(d: Definition)
    | UpdateDefinition(d: Definition)
    | GetDefinition(id: string)
    | ListDefinitions(workspace: string)
    | DeleteDefinition(id: string)
    | LastCompletedJob(definitionId: string, excludeId: string)

  // ----- queries shared by both backends -----

  /** Newest first, those of one workspace, or all for the empty name. */
  function JobsListed(jobs: map<string, Job>, order: seq<string>, workspace: string): seq<Job> {
    if order == [] then []
    else
      var id := order[|order| - 1];
      var rest := JobsListed(jobs, order[..|order| - 1], workspace);
      if id in jobs && (workspace == "" || jobs[id].workspace == workspace) then [jobs[id]] + rest else rest
  }

  /** Oldest first. */
  function DefinitionsListed(defs: map<string, Definition>, order: seq<string>, workspace: string): seq<Definition> {
    if order == [] then []
    else
      var id := order[|order| - 1];
      var rest := DefinitionsListed(defs, order[..|order| - 1], workspace);
      if id in defs && (workspace == "" || defs[id].workspace == workspace) then rest + [defs[id]] else rest
  }

  function Active(jobs: map<string, Job>): set<string> {
    set id | id in jobs && !jobs[id].state.Terminal()
  }

  predicate IsRunOf(jobs: map<string, Job>, id: string, definitionId: string, excludeId: string) {
    id in jobs && jobs[id].id != excludeId && jobs[id].definitionId == definitionId && jobs[id].state == Completed
  }

  /** The most recently created completed run of a definition, leaving one job out. */
  function LastCompleted(jobs: map<string, Job>, order: seq<string>, definitionId: string, excludeId: string): Option<Job> {
    if definitionId == "" || order == [] then None
    else
      var id := order[|order| - 1];
      if IsRunOf(jobs, id, definitionId, excludeId) then Some(jobs[id])
      else LastCompleted(jobs, order[..|order| - 1], definitionId, excludeId)
  }

  /** The backward walk over the insertion order. */
  method LastCompletedLoop(jobs: map<string, Job>, order: seq<string>, definitionId: string, excludeId: string)
    returns (r: Option<Job>)
    ensures r == LastCompleted(jobs, order, definitionId, excludeId)
  {
    if definitionId == "" {
      return None;
    }
    var i := |order|;
    assert order[..i] == order;
    while i > 0
      invariant 0 <= i <= |order|
      invariant LastCompleted(jobs, order, definitionId, excludeId) == LastCompleted(jobs, order[..i], definitionId, excludeId)
    {
      assert order[..i][..i - 1] == order[..i - 1];
      i := i - 1;
      var id := order[i];
      if id !in jobs || jobs[id].id == excludeId {
        continue;
      }
      if jobs[id].definitionId == definitionId && jobs[id].state == Completed {
        return Some(jobs[id]);
      }
    }
    return None;
  }

  /** A list without its first `x`. */
  function Without(s: seq<string>, x: string): seq<string> {
    if s == [] then [] else if s[0] == x then s[1..] else [s[0]] + Without(s[1..], x)
  }

  lemma {:induction false} WithoutMembers(s: seq<string>, x: string)
    requires NoDuplicates(s)
    ensures NoDuplicates(Without(s, x))
    ensures forall y :: y in Without(s, x) <==> y in s && y != x
  {
    if s != [] {
      SplitHead(s);
      assert s[0] !in s[1..];
      WithoutMembers(s[1..], x);
    }
  }

  /** The loop over an order list that cuts out the first occurrence. */
  method DropFromOrder(order: seq<string>, id: string) returns (r: seq<string>)
    ensures r == Without(order, id)
  {
    var i := 0;
    assert order[..0] + Without(order[0..], id) == Without(order, id);
    while i < |order| && order[i] != id
      invariant 0 <= i <= |order| && Without(order, id) == order[..i] + Without(order[i..], id)
    {
      assert order[i..][0] == order[i] && order[i..][1..] == order[i + 1..];
      TakeNext(order, i);
      i := i + 1;
    }
    if i < |order| {
      assert order[i..][0] == id && order[i..][1..] == order[i + 1..];
      r := order[..i] + order[i + 1..];
    } else {
      assert order[i..] == [] && order[..i] == order;
      r := order;
    }
  }

  // ----- the reference store -----

  datatype MemState = MemState(
    jobs: map<string, Job>, order: seq<string>, findings: map<string, seq<Finding>>,
    defs: map<string, Definition>, defOrder: seq<string>)

  const EMPTY_MEM := MemState(map[], [], map[], map[], [])

  function FindingsOf(findings: map<string, seq<Finding>>, id: string): seq<Finding> {
    if id in findings then findings[id] else []
  }

  function MemStep(s: MemState, op: Op): (MemState, Answer) {
    match op
    case CreateJob(j) =>
      if j.id in s.jobs then (s, Refuse(Duplicate))
      else (s.(jobs := s.jobs[j.id := j], order := s.order + [j.id]), Ack)
    case UpdateJob(j) =>
      if j.id !in s.jobs then (s, Refuse(NotFound)) else (s.(jobs := s.jobs[j.id := j]), Ack)
    case GetJob(id) =>
      (s, if id in s.jobs then OneJob(s.jobs[id]) else Refuse(NotFound))
    case ListJobs(w) => (s, ManyJobs(JobsListed(s.jobs, s.order, w)))
    case AddFindings(id, fs) =>
      if id !in s.jobs then (s, Refuse(NotFound))
      else (s.(findings := s.findings[id := FoldIn(FindingsOf(s.findings, id), fs)]), Ack)
    case GetFindings(id) =>
      (s, if id in s.jobs then SomeFindings(FindingsOf(s.findings, id)) else Refuse(NotFound))
    case ActiveJobs => (s, Number(|Active(s.jobs)|))
    case CreateDefinition(d) =>
      if d.id in s.defs then (s, Refuse(Duplicate))
      else (s.(defs := s.defs[d.id := d], defOrder := s.defOrder + [d.id]), Ack)
    case UpdateDefinition(d) =>
      if d.id !in s.defs then (s, Refuse(NotFound)) else (s.(defs := s.defs[d.id := d]), Ack)
    case GetDefinition(id) =>
      (s, if id in s.defs then OneDefinition(s.defs[id]) else Refuse(NotFound))
    case ListDefinitions(w) => (s, ManyDefinitions(DefinitionsListed(s.defs, s.defOrder, w)))
    case DeleteDefinition(id) =>
      if id !in s.defs then (s, Refuse(NotFound))
      else (s.(defs := s.defs - {id}, defOrder := Without(s.defOrder, id)), Ack)
    case LastCompletedJob(d, x) =>
      (s, match LastCompleted(s.jobs, s.order, d, x) case None => Refuse(NotFound) case Some(j) => OneJob(j))
  }

  // What single operations do, for proofs that do not look inside the others.

  lemma CreateJobMeans(s: MemState, j: Job)
    ensures MemStep(s, CreateJob(j)) == if j.id in s.jobs then (s, Refuse(Duplicate))
                                        else (s.(jobs := s.jobs[j.id := j], order := s.order + [j.id]), Ack)
  {
  }

  lemma UpdateJobMeans(s: MemState, j: Job)
    ensures MemStep(s, UpdateJob(j)) == if j.id !in s.jobs then (s, Refuse(NotFound)) else (s.(jobs := s.jobs[j.id := j]), Ack)
  {
  }

  lemma CreateDefinitionMeans(s: MemState, d: Definition)
    ensures MemStep(s, CreateDefinition(d)) == if d.id in s.defs then (s, Refuse(Duplicate))
                                               else (s.(defs := s.defs[d.id := d], defOrder := s.defOrder + [d.id]), Ack)
  {
  }

  lemma UpdateDefinitionMeans(s: MemState, d: Definition)
    ensures MemStep(s, UpdateDefinition(d)) == if d.id !in s.defs then (s, Refuse(NotFound)) else (s.(defs := s.defs[d.id := d]), Ack)
  {
  }

  lemma DeleteDefinitionMeans(s: MemState, id: string)
    ensures id !in s.defs ==> MemStep(s, DeleteDefinition(id)) == (s, Refuse(NotFound))
    ensures id in s.defs ==>
              MemStep(s, DeleteDefinition(id)) == (MemState(s.jobs, s.order, s.findings, s.defs - {id}, Without(s.defOrder, id)), Ack)
  {
  }

  lemma AddFindingsMeans(s: MemState, id: string, fs: seq<Finding>)
    ensures MemStep(s, AddFindings(id, fs))
            == if id !in s.jobs then (s, Refuse(NotFound))
               else (s.(findings := s.findings[id := FoldIn(FindingsOf(s.findings, id), fs)]), Ack)
  {
  }

  // ----- the file store -----

  /** What a document holds. The signature of a finding is not serialised. */
  function Strip(f: Finding): Finding { f.(signature := "") }

  function StripAll(fs: seq<Finding>): seq<Finding> { MapSeq(Strip, fs) }

  datatype Document = JobDocument(job: Job) | FindingsDocument(fs: seq<Finding>) | DefinitionDocument(d: Definition) | Torn

  /** One directory: file name to contents. */
  type Directory = map<string, Document>

  datatype Disk = Disk(jobs: Directory, findings: Directory, definitions: Directory)

  function FileName(id: string): string { id + ".json" }

  lemma FileNameInjective(a: string, b: string)
    requires FileName(a) == FileName(b)
    ensures a == b
  {
    assert FileName(a)[..|FileName(a)| - 5] == a && FileName(b)[..|FileName(b)| - 5] == b;
  }

  predicate SafeId(id: string) {
    id != "" && '/' !in id && '\\' !in id && '.' !in id
  }

  datatype FileState = FileState(
    jobs: map<string, Job>, order: seq<string>, defs: map<string, Definition>, defOrder: seq<string>, disk: Disk)

  const EMPTY_DISK := Disk(map[], map[], map[])
  const EMPTY_FILE := FileState(map[], [], map[], [], EMPTY_DISK)

  function ReadFindings(disk: Disk, id: string): seq<Finding> {
    if FileName(id) in disk.findings && disk.findings[FileName(id)].FindingsDocument?
    then disk.findings[FileName(id)].fs else []
  }

  /** One operation; `io` says whether the disk access it makes, if any, succeeds. */
  function FileStep(s: FileState, op: Op, io: bool): (FileState, Answer) {
    match op
    case CreateJob(j) =>
      if !SafeId(j.id) then (s, Refuse(UnsafeId))
      else if j.id in s.jobs then (s, Refuse(Duplicate))
      else if !io then (s, Refuse(Io))
      else (s.(disk := s.disk.(jobs := s.disk.jobs[FileName(j.id) := JobDocument(j)]),
               jobs := s.jobs[j.id := j], order := s.order + [j.id]), Ack)
    case UpdateJob(j) =>
      if !SafeId(j.id) then (s, Refuse(UnsafeId))
      else if j.id !in s.jobs then (s, Refuse(NotFound))
      else if !io then (s, Refuse(Io))
      else (s.(disk := s.disk.(jobs := s.disk.jobs[FileName(j.id) := JobDocument(j)]), jobs := s.jobs[j.id := j]), Ack)
    case GetJob(id) =>
      (s, if id in s.jobs then OneJob(s.jobs[id]) else Refuse(NotFound))
    case ListJobs(w) => (s, ManyJobs(JobsListed(s.jobs, s.order, w)))
    case AddFindings(id, fs) =>
      if !SafeId(id) then (s, Refuse(UnsafeId))
      else if id !in s.jobs then (s, Refuse(NotFound))
      else if !io then (s, Refuse(Io))
      else
        var merged := FoldIn(ReadFindings(s.disk, id), fs);
        (s.(disk := s.disk.(findings := s.disk.findings[FileName(id) := FindingsDocument(StripAll(merged))])), Ack)
    case GetFindings(id) =>
      (s, if id !in s.jobs then Refuse(NotFound) else if !io then Refuse(Io) else SomeFindings(ReadFindings(s.disk, id)))
    case ActiveJobs => (s, Number(|Active(s.jobs)|))
    case CreateDefinition(d) =>
      if !SafeId(d.id) then (s, Refuse(UnsafeId))
      else if d.id in s.defs then (s, Refuse(Duplicate))
      else if !io then (s, Refuse(Io))
      else (s.(disk := s.disk.(definitions := s.disk.definitions[FileName(d.id) := DefinitionDocument(d)]),
               defs := s.defs[d.id := d], defOrder := s.defOrder + [d.id]), Ack)
    case UpdateDefinition(d) =>
      if !SafeId(d.id) then (s, Refuse(UnsafeId))
      else if d.id !in s.defs then (s, Refuse(NotFound))
      else if !io then (s, Refuse(Io))
      else (s.(disk := s.disk.(definitions := s.disk.definitions[FileName(d.id) := DefinitionDocument(d)]),
               defs := s.defs[d.id := d]), Ack)
    case GetDefinition(id) =>
      (s, if id in s.defs then OneDefinition(s.defs[id]) else Refuse(NotFound))
    case ListDefinitions(w) => (s, ManyDefinitions(DefinitionsListed(s.defs, s.defOrder, w)))
    case DeleteDefinition(id) =>
      if !SafeId(id) then (s, Refuse(UnsafeId))
      else if id !in s.defs then (s, Refuse(NotFound))
      else if !io then (s, Refuse(Io))
      else (s.(disk := s.disk.(definitions := s.disk.definitions - {FileName(id)}),
               defs := s.defs - {id}, defOrder := Without(s.defOrder, id)), Ack)
    case LastCompletedJob(d, x) =>
      (s, match LastCompleted(s.jobs, s.order, d, x) case None => Refuse(NotFound) case Some(j) => OneJob(j))
  }

  // ----- reopening -----

  predicate IsDocumentName(name: string) { HasSuffix(name, ".json") }

  predicate JobBefore(a: Job, b: Job) {
    if a.created != b.created then a.created < b.created else StrLeq(a.id, b.id)
  }

  predicate DefinitionBefore(a: Definition, b: Definition) {
    if a.created != b.created then a.created < b.created else StrLeq(a.id, b.id)
  }

  function PickJob(doc: Document): Option<Job> {
    if doc.JobDocument? then Some(doc.job) else None
  }

  function PickDefinition(doc: Document): Option<Definition> {
    if doc.DefinitionDocument? then Some(doc.d) else None
  }

  /** The readable documents of a directory, in the order it is listed; anything else is skipped. */
  function Collect<T>(pick: Document -> Option<T>, dir: Directory, listing: seq<string>): seq<T> {
    if listing == [] then []
    else
      var name := listing[|listing| - 1];
      var rest := Collect(pick, dir, listing[..|listing| - 1]);
      if IsDocumentName(name) && name in dir && pick(dir[name]).Some? then rest + [pick(dir[name]).value] else rest
  }

  function IndexBy<T>(idOf: T -> string, ts: seq<T>): map<string, T> {
    if ts == [] then map[] else IndexBy(idOf, ts[..|ts| - 1])[idOf(ts[|ts| - 1]) := ts[|ts| - 1]]
  }

  function JobIdOf(j: Job): string { j.id }

  function DefinitionIdOf(d: Definition): string { d.id }

  /** The store as it is rebuilt from disk: oldest first by creation time, then identifier. */
  function Reopen(disk: Disk, jobNames: seq<string>, definitionNames: seq<string>): FileState {
    var js := SortBy(JobBefore, Collect(PickJob, disk.jobs, jobNames));
    var ds := SortBy(DefinitionBefore, Collect(PickDefinition, disk.definitions, definitionNames));
    FileState(IndexBy(JobIdOf, js), MapSeq(JobIdOf, js), IndexBy(DefinitionIdOf, ds), MapSeq(DefinitionIdOf, ds), disk)
  }

  // ----- writing one document -----

  /** What the file system does in one go. A new file is empty, which no reader can decode. */
  datatype Primitive = Create(name: string) | Fill(name: string, doc: Document) | Rename(from: string, to: string) | Remove(name: string)

  function Apply(dir: Directory, p: Primitive): Directory {
    match p
    case Create(n) => dir[n := Torn]
    case Fill(n, doc) => dir[n := doc]
    case Rename(n, m) => if n in dir then (dir - {n})[m := dir[n]] else dir
    case Remove(n) => dir - {n}
  }

  function Applied(dir: Directory, ps: seq<Primitive>): Directory
    decreases |ps|
  {
    if ps == [] then dir else Applied(Apply(dir, ps[0]), ps[1..])
  }

  /** `writeAtomic` when nothing fails: a temporary file, its content, and the renaming over the target. */
  function WriteSteps(name: string, tmp: string, doc: Document): seq<Primitive> {
    [Create(tmp), Fill(tmp, doc), Rename(tmp, name)]
  }

  datatype WriteFault = NoFault | AtCreate | AtWrite | AtSync | AtClose | AtChmod | AtRename

  /** Content goes to a temporary file that is renamed over the target; on every exit the temporary file is
      removed, unless that fails too and it is `left`. A failed write leaves the directory as it was, and in any case
      as it was to a load. */
  method WriteAtomic(dir: Directory, name: string, tmp: string, doc: Document, fault: WriteFault, left: bool)
    returns (after: Directory, ok: bool)
    requires tmp !in dir && tmp != name
    ensures ok <==> fault == NoFault
    ensures ok ==> after == Applied(dir, WriteSteps(name, tmp, doc)) == dir[name := doc]
    ensures !ok && !left ==> after == dir
    ensures !ok ==> after - {tmp} == dir && (!IsDocumentName(tmp) ==> Visible(after) == Visible(dir))
  {
    hide IsDocumentName, Applied;
    after, ok := dir, false;
    StepByStep(dir, name, tmp, doc);
    if fault == AtCreate {
      return;
    }
    after := Apply(after, Create(tmp));
    if fault == AtWrite {
      if !left {
        after := Apply(after, Remove(tmp));
      }
      return;
    }
    after := Apply(after, Fill(tmp, doc));
    if fault == AtSync || fault == AtClose || fault == AtChmod || fault == AtRename {
      if !left {
        after := Apply(after, Remove(tmp));
      }
      return;
    }
    after := Apply(after, Rename(tmp, name));
    ok := true;
  }

  /** The directories a write passes through. */
  lemma StepByStep(dir: Directory, name: string, tmp: string, doc: Document)
    requires tmp !in dir && tmp != name
    ensures var ps := WriteSteps(name, tmp, doc);
            && Applied(dir, ps[..0]) == dir && Applied(dir, ps[..1]) == dir[tmp := Torn]
            && Applied(dir, ps[..2]) == dir[tmp := doc] && Applied(dir, ps[..3]) == Applied(dir, ps) == dir[name := doc]
            && Apply(Apply(Apply(dir, Create(tmp)), Fill(tmp, doc)), Rename(tmp, name)) == dir[name := doc]
  {
    var ps := WriteSteps(name, tmp, doc);
    var one, two := [Create(tmp)], [Create(tmp), Fill(tmp, doc)];
    assert ps[..0] == [] && ps[..1] == one && ps[..2] == two && ps[..3] == ps;
    assert one[1..] == [] && two[1..] == [Fill(tmp, doc)] && ps[1..] == [Fill(tmp, doc), Rename(tmp, name)];
    assert [Fill(tmp, doc)][1..] == [] && ps[1..][1..] == [Rename(tmp, name)] && [Rename(tmp, name)][1..] == [];
    assert dir[tmp := Torn][tmp := doc] == dir[tmp := doc];
    assert (dir[tmp := doc] - {tmp})[name := doc] == dir[name := doc];
    assert Applied(dir[tmp := Torn], [Fill(tmp, doc)]) == dir[tmp := doc];
    assert Applied(dir[tmp := Torn], ps[1..]) == Applied(dir[tmp := doc], [Rename(tmp, name)]) == dir[name := doc];
  }

  /** What a later load can see of a directory. */
  function Visible(dir: Directory): Directory {
    map name | name in dir && IsDocumentName(name) :: dir[name]
  }

  /** A crash after `k` of the steps of a write shows either the old document or the new one, never a torn file. */
  lemma CrashShowsOldOrNew(dir: Directory, name: string, tmp: string, doc: Document, k: nat)
    requires tmp !in dir && !IsDocumentName(tmp) && IsDocumentName(name) && k <= 3
    ensures var seen := Visible(Applied(dir, WriteSteps(name, tmp, doc)[..k]));
            if k < 3 then seen == Visible(dir) else seen == Visible(dir[name := doc])
  {
    hide IsDocumentName, Applied, WriteSteps;
    StepByStep(dir, name, tmp, doc);
  }
}
