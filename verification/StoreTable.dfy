/** internal/store/store.go: what a store is for, told by two lists in order of creation. Both backends answer as
    these lists do, over every run of operations. */
module StoreTable {
  import opened Text
  import opened Ordering
  import opened Findings
  import opened Records
  import opened Correlate
  import opened Store
  import opened StoreProofs
  import opened StoreReopen

  // ----- the lists -----

  /** Jobs and definitions, oldest first, and the findings of each job. */
  datatype Table = Table(jobs: seq<Job>, defs: seq<Definition>, findings: map<string, seq<Finding>>)

  const NO_RECORDS := Table([], [], map[])

  function Named<T>(idOf: T -> string, id: string): T -> bool { (x: T) => idOf(x) == id }

  function Others<T>(idOf: T -> string, id: string): T -> bool { (x: T) => idOf(x) != id }

  function Swapped<T>(idOf: T -> string, y: T): T -> T { (x: T) => if idOf(x) == idOf(y) then y else x }

  function JobIn(workspace: string): Job -> bool { (j: Job) => workspace == "" || j.workspace == workspace }

  function DefinitionIn(workspace: string): Definition -> bool {
    (d: Definition) => workspace == "" || d.workspace == workspace
  }

  function Unfinished(j: Job): bool { j.state == Queued || j.state == Running }

  function CompletedRun(definitionId: string, excludeId: string): Job -> bool {
    (j: Job) => j.state == Completed && j.definitionId == definitionId && j.id != excludeId
  }

  function Reversed<T>(s: seq<T>): (r: seq<T>)
    ensures |r| == |s| && forall i :: 0 <= i < |s| ==> r[i] == s[|s| - 1 - i]
  {
    seq(|s|, i requires 0 <= i < |s| => s[|s| - 1 - i])
  }

  function TableStep(t: Table, op: Op): (Table, Answer) {
    match op
    case CreateJob(j) =>
      if Filter(Named(JobIdOf, j.id), t.jobs) != [] then (t, Refuse(Duplicate)) else (t.(jobs := t.jobs + [j]), Ack)
    case UpdateJob(j) =>
      if Filter(Named(JobIdOf, j.id), t.jobs) == [] then (t, Refuse(NotFound))
      else (t.(jobs := MapSeq(Swapped(JobIdOf, j), t.jobs)), Ack)
    case GetJob(id) =>
      var js := Filter(Named(JobIdOf, id), t.jobs);
      (t, if js == [] then Refuse(NotFound) else OneJob(js[0]))
    case ListJobs(w) => (t, ManyJobs(Reversed(Filter(JobIn(w), t.jobs))))
    case AddFindings(id, fs) =>
      if Filter(Named(JobIdOf, id), t.jobs) == [] then (t, Refuse(NotFound))
      else (t.(findings := t.findings[id := FoldIn(if id in t.findings then t.findings[id] else [], fs)]), Ack)
    case GetFindings(id) =>
      (t, if Filter(Named(JobIdOf, id), t.jobs) == [] then Refuse(NotFound)
          else SomeFindings(if id in t.findings then t.findings[id] else []))
    case ActiveJobs => (t, Number(|Filter(Unfinished, t.jobs)|))
    case CreateDefinition(d) =>
      if Filter(Named(DefinitionIdOf, d.id), t.defs) != [] then (t, Refuse(Duplicate)) else (t.(defs := t.defs + [d]), Ack)
    case UpdateDefinition(d) =>
      if Filter(Named(DefinitionIdOf, d.id), t.defs) == [] then (t, Refuse(NotFound))
      else (t.(defs := MapSeq(Swapped(DefinitionIdOf, d), t.defs)), Ack)
    case GetDefinition(id) =>
      var ds := Filter(Named(DefinitionIdOf, id), t.defs);
      (t, if ds == [] then Refuse(NotFound) else OneDefinition(ds[0]))
    case ListDefinitions(w) => (t, ManyDefinitions(Filter(DefinitionIn(w), t.defs)))
    case DeleteDefinition(id) =>
      if Filter(Named(DefinitionIdOf, id), t.defs) == [] then (t, Refuse(NotFound))
      else (t.(defs := Filter(Others(DefinitionIdOf, id), t.defs)), Ack)
    case LastCompletedJob(d, x) =>
      var js := Filter(CompletedRun(d, x), t.jobs);
      (t, if d == "" || js == [] then Refuse(NotFound) else OneJob(js[|js| - 1]))
  }

  predicate OnlyReads(op: Op) {
    op.GetJob? || op.ListJobs? || op.ActiveJobs? || op.GetDefinition? || op.ListDefinitions? || op.LastCompletedJob?
  }

  /** The identifier an operation would make a file name of. */
  function WrittenId(op: Op): Option<string> {
    match op
    case CreateJob(j) => Some(j.id)
    case UpdateJob(j) => Some(j.id)
    case AddFindings(id, _) => Some(id)
    case CreateDefinition(d) => Some(d.id)
    case UpdateDefinition(d) => Some(d.id)
    case DeleteDefinition(id) => Some(id)
    case _ => None
  }

  predicate Escapes(id: Option<string>) {
    id.Some? && (id.value == "" || exists c :: c in id.value && (c == '/' || c == '\\' || c == '.'))
  }

  /** One attempt. On disk an identifier that could leave the directory is refused first, and an operation that
      needs a disk which fails is refused and changes nothing. */
  function TableTurn(t: Table, a: Attempt, onDisk: bool): (Table, Answer) {
    if onDisk && Escapes(WrittenId(a.op)) then (t, Refuse(UnsafeId))
    else
      var r := TableStep(t, a.op);
      if a.io || OnlyReads(a.op) || r.1.Refuse? then r else (t, Refuse(Io))
  }

  function TableRun(ops: seq<Attempt>, onDisk: bool): (Table, seq<Answer>) {
    if ops == [] then (NO_RECORDS, [])
    else
      var before := TableRun(ops[..|ops| - 1], onDisk);
      var r := TableTurn(before.0, ops[|ops| - 1], onDisk);
      (r.0, before.1 + [r.1])
  }

  // ----- keyed records as a list -----

  /** The order lists every record of the map once, under its own identifier. */
  ghost predicate Keyed<T(!new)>(idOf: T -> string, recs: map<string, T>, order: seq<string>) {
    && NoDuplicates(order)
    && (forall id :: id in order <==> id in recs)
    && (forall id :: id in recs ==> idOf(recs[id]) == id)
  }

  lemma AllBut<T(!new)>(idOf: T -> string, recs: map<string, T>, order: seq<string>)
    requires NoDuplicates(order) && order != [] && forall id :: id in order ==> id in recs
    ensures var n := |order| - 1;
            && NoDuplicates(order[..n]) && order[n] !in order[..n] && (forall id :: id in order[..n] ==> id in recs)
            && InOrder(recs, order) == InOrder(recs, order[..n]) + [recs[order[n]]]
  {
    SplitLast(order);
  }

  lemma {:induction false} FindNamed<T(!new)>(idOf: T -> string, recs: map<string, T>, order: seq<string>, id: string)
    requires NoDuplicates(order) && (forall x :: x in order ==> x in recs)
    requires forall x :: x in recs ==> idOf(recs[x]) == x
    ensures Filter(Named(idOf, id), InOrder(recs, order)) == if id in order then [recs[id]] else []
  {
    if order == [] {
      FilterNone(Named(idOf, id), InOrder(recs, order));
    } else {
      var n := |order| - 1;
      AllBut(idOf, recs, order);
      FindNamed(idOf, recs, order[..n], id);
      SplitLast(order);
      FilterStep(Named(idOf, id), InOrder(recs, order[..n]), recs[order[n]]);
    }
  }

  lemma PutNew<T(!new)>(idOf: T -> string, recs: map<string, T>, order: seq<string>, y: T)
    requires Keyed(idOf, recs, order) && idOf(y) !in recs
    ensures var recs', order' := recs[idOf(y) := y], order + [idOf(y)];
            Keyed(idOf, recs', order') && InOrder(recs', order') == InOrder(recs, order) + [y]
  {
  }

  lemma PutAgain<T(!new)>(idOf: T -> string, recs: map<string, T>, order: seq<string>, y: T)
    requires Keyed(idOf, recs, order) && idOf(y) in recs
    ensures var recs' := recs[idOf(y) := y];
            Keyed(idOf, recs', order) && InOrder(recs', order) == MapSeq(Swapped(idOf, y), InOrder(recs, order))
  {
  }

  lemma {:induction false} WithoutIsOthers<T(!new)>(idOf: T -> string, recs: map<string, T>, order: seq<string>, id: string)
    requires Keyed(idOf, recs, order)
    ensures Keyed(idOf, recs - {id}, Without(order, id))
    ensures InOrder(recs - {id}, Without(order, id)) == Filter(Others(idOf, id), InOrder(recs, order))
  {
    hide Without;
    WithoutMembers(order, id);
    var m := recs - {id};
    var w := Without(order, id);
    forall x ensures x in w <==> x in m {
    }
    CutIsFilter(idOf, recs, order, id);
    assert InOrder(m, w) == InOrder(recs, w);
  }

  lemma {:induction false} CutIsFilter<T(!new)>(idOf: T -> string, recs: map<string, T>, order: seq<string>, id: string)
    requires NoDuplicates(order) && (forall x :: x in order ==> x in recs)
    requires forall x :: x in recs ==> idOf(recs[x]) == x
    ensures forall x :: x in Without(order, id) ==> x in recs
    ensures InOrder(recs, Without(order, id)) == Filter(Others(idOf, id), InOrder(recs, order))
  {
    hide Filter, Without, NoDuplicates;
    var p := Others(idOf, id);
    WithoutMembers(order, id);
    if order == [] {
      FilterNone(p, InOrder(recs, order));
      NothingToCut(id);
    } else {
      var n := |order| - 1;
      AllBut(idOf, recs, order);
      CutIsFilter(idOf, recs, order[..n], id);
      FilterStep(p, InOrder(recs, order[..n]), recs[order[n]]);
      WithoutSnoc(order[..n], order[n], id);
      SplitLast(order);
      if order[n] == id {
        NotCut(order[..n], id);
      }
      InOrderSnoc(recs, Without(order[..n], id), order[n]);
    }
  }

  lemma NothingToCut(id: string)
    ensures Without([], id) == []
  {
  }

  lemma {:induction false} NotCut(s: seq<string>, id: string)
    requires id !in s
    ensures Without(s, id) == s
  {
    if s != [] {
      NotCut(s[1..], id);
      SplitHead(s);
    }
  }

  lemma InOrderSnoc<T>(recs: map<string, T>, order: seq<string>, x: string)
    requires (forall y :: y in order ==> y in recs) && x in recs
    ensures forall y :: y in order + [x] ==> y in recs
    ensures InOrder(recs, order + [x]) == InOrder(recs, order) + [recs[x]]
  {
  }

  lemma {:induction false} WithoutSnoc(s: seq<string>, x: string, id: string)
    requires x !in s
    ensures Without(s + [x], id) == if x == id then s else Without(s, id) + [x]
  {
    var t := s + [x];
    if s == [] {
      assert t == [x] && t[1..] == [];
    } else {
      assert t[0] == s[0] && t[1..] == s[1..] + [x];
      WithoutSnoc(s[1..], x, id);
      SplitHead(s);
    }
  }

  // ----- the queries -----

  lemma {:induction false} JobsListedIs(jobs: map<string, Job>, order: seq<string>, w: string)
    requires NoDuplicates(order) && forall id :: id in order ==> id in jobs
    ensures JobsListed(jobs, order, w) == Reversed(Filter(JobIn(w), InOrder(jobs, order)))
  {
    if order == [] {
      FilterNone(JobIn(w), InOrder(jobs, order));
    } else {
      var n := |order| - 1;
      AllBut(JobIdOf, jobs, order);
      JobsListedIs(jobs, order[..n], w);
      FilterStep(JobIn(w), InOrder(jobs, order[..n]), jobs[order[n]]);
      ReversedSnoc(Filter(JobIn(w), InOrder(jobs, order[..n])), jobs[order[n]]);
    }
  }

  lemma ReversedSnoc<T>(s: seq<T>, x: T)
    ensures Reversed(s + [x]) == [x] + Reversed(s)
  {
  }

  lemma {:induction false} DefinitionsListedIs(defs: map<string, Definition>, order: seq<string>, w: string)
    requires NoDuplicates(order) && forall id :: id in order ==> id in defs
    ensures DefinitionsListed(defs, order, w) == Filter(DefinitionIn(w), InOrder(defs, order))
  {
    if order == [] {
      FilterNone(DefinitionIn(w), InOrder(defs, order));
    } else {
      var n := |order| - 1;
      AllBut(DefinitionIdOf, defs, order);
      DefinitionsListedIs(defs, order[..n], w);
      FilterStep(DefinitionIn(w), InOrder(defs, order[..n]), defs[order[n]]);
    }
  }

  lemma {:induction false} ActiveIs(jobs: map<string, Job>, order: seq<string>)
    requires NoDuplicates(order) && forall id :: id in order ==> id in jobs
    ensures |ActiveAmong(jobs, order)| == |Filter(Unfinished, InOrder(jobs, order))|
  {
    hide Filter;
    if order == [] {
      FilterNone(Unfinished, InOrder(jobs, order));
      assert ActiveAmong(jobs, order) == {};
    } else {
      var n := |order| - 1;
      AllBut(JobIdOf, jobs, order);
      hide NoDuplicates, InOrder, ActiveAmong;
      ActiveIs(jobs, order[..n]);
      FilterStep(Unfinished, InOrder(jobs, order[..n]), jobs[order[n]]);
      ActiveNext(jobs, order);
    }
  }

  lemma ActiveNext(jobs: map<string, Job>, order: seq<string>)
    requires order != [] && order[|order| - 1] in jobs && order[|order| - 1] !in order[..|order| - 1]
    ensures var n := |order| - 1;
            |ActiveAmong(jobs, order)| == |ActiveAmong(jobs, order[..n])| + if Unfinished(jobs[order[n]]) then 1 else 0
  {
    var n := |order| - 1;
    SplitLast(order);
    assert ActiveAmong(jobs, order) ==
           ActiveAmong(jobs, order[..n]) + if Unfinished(jobs[order[n]]) then {order[n]} else {};
  }

  function ActiveAmong(jobs: map<string, Job>, order: seq<string>): set<string> {
    set id | id in order && id in jobs && !jobs[id].state.Terminal()
  }

  lemma {:induction false} LastCompletedIs(jobs: map<string, Job>, order: seq<string>, d: string, x: string)
    requires NoDuplicates(order) && forall id :: id in order ==> id in jobs
    ensures var js := Filter(CompletedRun(d, x), InOrder(jobs, order));
            LastCompleted(jobs, order, d, x) == if d == "" || js == [] then None else Some(js[|js| - 1])
  {
    if order == [] {
      FilterNone(CompletedRun(d, x), InOrder(jobs, order));
    } else {
      var n := |order| - 1;
      AllBut(JobIdOf, jobs, order);
      LastCompletedIs(jobs, order[..n], d, x);
      FilterStep(CompletedRun(d, x), InOrder(jobs, order[..n]), jobs[order[n]]);
    }
  }

  // ----- the reference store is such a table -----

  ghost predicate Kept(m: MemState) {
    Keyed(JobIdOf, m.jobs, m.order) && Keyed(DefinitionIdOf, m.defs, m.defOrder)
  }

  function TableOf(m: MemState): Table
    requires Kept(m)
  {
    Table(InOrder(m.jobs, m.order), InOrder(m.defs, m.defOrder), m.findings)
  }

  ghost predicate StepIsTable(m: MemState, op: Op) {
    && Kept(m) && Kept(MemStep(m, op).0)
    && TableStep(TableOf(m), op) == (TableOf(MemStep(m, op).0), MemStep(m, op).1)
  }

  lemma JobFound(m: MemState, id: string)
    requires Kept(m)
    ensures Filter(Named(JobIdOf, id), TableOf(m).jobs) == if id in m.jobs then [m.jobs[id]] else []
  {
    FindNamed(JobIdOf, m.jobs, m.order, id);
  }

  lemma DefinitionFound(m: MemState, id: string)
    requires Kept(m)
    ensures Filter(Named(DefinitionIdOf, id), TableOf(m).defs) == if id in m.defs then [m.defs[id]] else []
  {
    FindNamed(DefinitionIdOf, m.defs, m.defOrder, id);
  }

  lemma WritesAreTable(m: MemState, op: Op)
    requires Kept(m) && (op.CreateJob? || op.UpdateJob? || op.CreateDefinition? || op.UpdateDefinition? || op.DeleteDefinition?)
    ensures StepIsTable(m, op)
  {
    hide Filter, Keyed, Without, Named, Swapped, Others;
    match op
    case CreateJob(j) =>
      JobFound(m, j.id);
      if j.id !in m.jobs { PutNew(JobIdOf, m.jobs, m.order, j); }
    case UpdateJob(j) =>
      JobFound(m, j.id);
      if j.id in m.jobs { PutAgain(JobIdOf, m.jobs, m.order, j); }
    case CreateDefinition(d) =>
      DefinitionFound(m, d.id);
      if d.id !in m.defs { PutNew(DefinitionIdOf, m.defs, m.defOrder, d); }
    case UpdateDefinition(d) =>
      DefinitionFound(m, d.id);
      if d.id in m.defs { PutAgain(DefinitionIdOf, m.defs, m.defOrder, d); }
    case DeleteDefinition(id) =>
      DefinitionFound(m, id);
      if id in m.defs { WithoutIsOthers(DefinitionIdOf, m.defs, m.defOrder, id); }
  }

  lemma ReadsAreTable(m: MemState, op: Op)
    requires Kept(m) && !(op.CreateJob? || op.UpdateJob? || op.CreateDefinition? || op.UpdateDefinition? || op.DeleteDefinition?)
    ensures StepIsTable(m, op)
  {
    hide Filter, Named, FoldIn, JobIn, DefinitionIn, CompletedRun, JobsListed, DefinitionsListed, LastCompleted;
    match op
    case GetJob(id) => JobFound(m, id);
    case ListJobs(w) => JobsListedIs(m.jobs, m.order, w);
    case AddFindings(id, fs) => JobFound(m, id);
    case GetFindings(id) => JobFound(m, id);
    case ActiveJobs =>
      ActiveIs(m.jobs, m.order);
      assert Active(m.jobs) == ActiveAmong(m.jobs, m.order);
    case GetDefinition(id) => DefinitionFound(m, id);
    case ListDefinitions(w) => DefinitionsListedIs(m.defs, m.defOrder, w);
    case LastCompletedJob(d, x) => LastCompletedIs(m.jobs, m.order, d, x);
  }

  lemma StepsAreTable(m: MemState, op: Op)
    requires Kept(m)
    ensures StepIsTable(m, op)
  {
    hide StepIsTable, Kept;
    if op.CreateJob? || op.UpdateJob? || op.CreateDefinition? || op.UpdateDefinition? || op.DeleteDefinition? {
      WritesAreTable(m, op);
    } else {
      ReadsAreTable(m, op);
    }
  }

  lemma TurnIsTable(m: MemState, a: Attempt)
    requires Kept(m)
    ensures Kept(FaultyStep(m, a.op, a.io).0)
    ensures TableTurn(TableOf(m), a, false) == (TableOf(FaultyStep(m, a.op, a.io).0), FaultyStep(m, a.op, a.io).1)
  {
    hide Kept, MemStep, TableStep, TableOf;
    StepsAreTable(m, a.op);
  }

  /** The memory store answers every run of operations as the table does. */
  lemma {:induction false} MemoryAnswersAsTable(ops: seq<Attempt>)
    ensures Kept(MemRun(EMPTY_MEM, ops).0) && TableOf(MemRun(EMPTY_MEM, ops).0) == TableRun(ops, false).0
    ensures MemRun(EMPTY_MEM, ops).1 == TableRun(ops, false).1
  {
    hide FaultyStep, TableTurn;
    if ops != [] {
      var n := |ops| - 1;
      MemoryAnswersAsTable(ops[..n]);
      TurnIsTable(MemRun(EMPTY_MEM, ops[..n]).0, ops[n]);
    }
  }

  // ----- and so does the file store -----

  ghost predicate Follows(t: Table, f: FileState) {
    exists m :: Kept(m) && Refines(m, f) && TableOf(m) == t
  }

  lemma SafeMeans(op: Op)
    ensures SafeOp(op) <==> !Escapes(WrittenId(op))
  {
  }

  lemma UnsafeIsRefused(f: FileState, op: Op, io: bool)
    requires !SafeOp(op)
    ensures FileStep(f, op, io) == (f, Refuse(UnsafeId))
  {
    hide SafeId;
  }

  lemma FileTurn(t: Table, f: FileState, a: Attempt)
    requires Follows(t, f)
    ensures Follows(TableTurn(t, a, true).0, FileStep(f, a.op, a.io).0)
    ensures SameAnswer(TableTurn(t, a, true).1, FileStep(f, a.op, a.io).1)
  {
    hide Kept, Refines, MemStep, FileStep, TableStep, FaultyStep, SafeOp, WrittenId, Escapes, TableOf;
    SafeMeans(a.op);
    if !SafeOp(a.op) {
      UnsafeIsRefused(f, a.op, a.io);
    } else {
      var m :| Kept(m) && Refines(m, f) && TableOf(m) == t;
      TurnIsTable(m, a);
      FileRefinesMem(m, f, a.op, a.io);
      assert TableTurn(t, a, true) == TableTurn(t, a, false);
      assert Refines(FaultyStep(m, a.op, a.io).0, FileStep(f, a.op, a.io).0);
    }
  }

  lemma StartFollows()
    ensures Follows(NO_RECORDS, EMPTY_FILE)
  {
    StartRefines();
    assert Kept(EMPTY_MEM);
    assert TableOf(EMPTY_MEM) == NO_RECORDS;
  }

  /** Over every run of operations and every pattern of disk failures, whatever the identifiers, the file store
      answers as the table does, but for the signatures of findings, which it does not keep. */
  lemma {:induction false} FileAnswersAsTable(ops: seq<Attempt>)
    ensures Follows(TableRun(ops, true).0, FileRun(EMPTY_FILE, ops).0)
    ensures |TableRun(ops, true).1| == |FileRun(EMPTY_FILE, ops).1| == |ops|
    ensures forall i :: 0 <= i < |ops| ==> SameAnswer(TableRun(ops, true).1[i], FileRun(EMPTY_FILE, ops).1[i])
  {
    hide FileStep, TableTurn, Follows, SameAnswer;
    if ops == [] {
      StartFollows();
    } else {
      var n := |ops| - 1;
      FileAnswersAsTable(ops[..n]);
      FileTurn(TableRun(ops[..n], true).0, FileRun(EMPTY_FILE, ops[..n]).0, ops[n]);
    }
  }

  // ----- what the lists promise -----

  /** Where a record of a list without repeats stands. */
  ghost predicate InSameOrder<T>(part: seq<T>, whole: seq<T>, at: seq<nat>) {
    && |at| == |part|
    && (forall i :: 0 <= i < |at| ==> at[i] < |whole| && part[i] == whole[at[i]])
    && forall i, j :: 0 <= i < j < |at| ==> at[i] < at[j]
  }

  lemma {:induction false} FilterInOrder<T(!new)>(p: T -> bool, s: seq<T>) returns (at: seq<nat>)
    ensures InSameOrder(Filter(p, s), s, at)
  {
    if s == [] {
      at := [];
    } else {
      var n := |s| - 1;
      SplitLast(s);
      at := FilterInOrder(p, s[..n]);
      FilterStep(p, s[..n], s[n]);
      if p(s[n]) {
        at := at + [n];
      }
    }
  }

  /** The definitions listed are exactly those of the workspace, or all for the empty name, each once and in the order
      they were created in. */
  lemma DefinitionsListedMean(t: Table, w: string) returns (at: seq<nat>)
    ensures var a := TableStep(t, ListDefinitions(w)).1;
            && a.ManyDefinitions? && InSameOrder(a.definitions, t.defs, at)
            && forall d :: d in a.definitions <==> d in t.defs && (w == "" || d.workspace == w)
  {
    hide Filter;
    at := FilterInOrder(DefinitionIn(w), t.defs);
  }

  /** The jobs listed are exactly those of the workspace, or all for the empty name, each once and the newest first. */
  lemma JobsListedMean(t: Table, w: string) returns (at: seq<nat>)
    ensures var a := TableStep(t, ListJobs(w)).1;
            && a.ManyJobs? && InSameOrder(Reversed(a.jobs), t.jobs, at)
            && forall j :: j in a.jobs <==> j in t.jobs && (w == "" || j.workspace == w)
  {
    hide Filter, InSameOrder;
    at := FilterInOrder(JobIn(w), t.jobs);
    var js := Filter(JobIn(w), t.jobs);
    ReversedTwice(js);
    hide Reversed;
    forall j ensures j in Reversed(js) <==> j in js {
      ReversedMember(js, j);
    }
  }

  lemma ReversedTwice<T>(s: seq<T>)
    ensures Reversed(Reversed(s)) == s
  {
  }

  lemma ReversedMember<T>(s: seq<T>, x: T)
    ensures x in Reversed(s) <==> x in s
  {
    if x in s {
      var i :| 0 <= i < |s| && s[i] == x;
      assert Reversed(s)[|s| - 1 - i] == x;
    }
  }

  // ----- after a restart -----

  lemma ReloadedInOrder<T(!new)>(idOf: T -> string, pick: Document -> Option<T>, leq: (T, T) -> bool, recs: map<string, T>,
                                 order: seq<string>, dir: Directory, listing: seq<string>)
    requires TotalPreorder(leq) && forall x, y :: leq(x, y) && leq(y, x) ==> idOf(x) == idOf(y)
    requires Holds(idOf, pick, recs, dir) && Lists(order, recs) && Lists(listing, dir)
    ensures var o := MapSeq(idOf, SortBy(leq, Collect(pick, dir, listing)));
            Lists(o, recs) && forall i, j :: 0 <= i < j < |o| ==> leq(recs[o[i]], recs[o[j]])
  {
    hide Collect, SortBy, FileName, IndexBy, Holds, TotalPreorder, NoDuplicates;
    assert forall id :: id in recs ==> idOf(recs[id]) == id by { HeldByName(idOf, pick, recs, dir); }
    ReloadOne(idOf, pick, leq, recs, order, dir, listing);
    InOrderMembers(idOf, recs, order);
    var r := InOrder(recs, order);
    SortBySorted(leq, r);
    SortedRecords(idOf, leq, recs, r, SortBy(leq, r));
  }

  lemma HeldByName<T(!new)>(idOf: T -> string, pick: Document -> Option<T>, recs: map<string, T>, dir: Directory)
    requires Holds(idOf, pick, recs, dir)
    ensures forall id :: id in recs ==> idOf(recs[id]) == id
  {
  }

  lemma SortedRecords<T(!new)>(idOf: T -> string, leq: (T, T) -> bool, recs: map<string, T>, r: seq<T>, ts: seq<T>)
    requires multiset(r) == multiset(ts) && Sorted(leq, ts)
    requires forall t :: t in r ==> idOf(t) in recs && recs[idOf(t)] == t
    ensures var o := MapSeq(idOf, ts);
            (forall id :: id in o ==> id in recs) && forall i, j :: 0 <= i < j < |o| ==> leq(recs[o[i]], recs[o[j]])
  {
    SameElements(ts, r);
    forall i | 0 <= i < |ts| ensures idOf(ts[i]) in recs && recs[idOf(ts[i])] == ts[i] {
      assert ts[i] in r;
    }
  }

  predicate Older(c: int, id: string, d: int, other: string) { c < d || (c == d && StrLeq(id, other)) }

  /** A reopened store lists the older record first, and the smaller identifier first among equally old ones. */
  lemma ReopenedOldestFirst(f: FileState, jobNames: seq<string>, definitionNames: seq<string>)
    requires Coherent(f)
    requires Lists(jobNames, f.disk.jobs) && Lists(definitionNames, f.disk.definitions)
    ensures var g := Reopen(f.disk, jobNames, definitionNames);
            && Lists(g.order, f.jobs) && Lists(g.defOrder, f.defs)
            && (forall i, j :: 0 <= i < j < |g.order| ==>
                 Older(f.jobs[g.order[i]].created, g.order[i], f.jobs[g.order[j]].created, g.order[j]))
            && (forall i, j :: 0 <= i < j < |g.defOrder| ==>
                 Older(f.defs[g.defOrder[i]].created, g.defOrder[i], f.defs[g.defOrder[j]].created, g.defOrder[j]))
  {
    hide SortBy, Collect, StrLeq, IndexBy, SafeId, FileName, Sorted;
    JobBeforeOrder();
    DefinitionBeforeOrder();
    JobsHeld(f);
    ReloadedInOrder(JobIdOf, PickJob, JobBefore, f.jobs, f.order, f.disk.jobs, jobNames);
    ReloadedInOrder(DefinitionIdOf, PickDefinition, DefinitionBefore, f.defs, f.defOrder, f.disk.definitions, definitionNames);
  }
}
