/** internal/store/mem.go on the heap: the reference store holds deep copies over arrays of its own, so nothing a
    caller keeps or is handed can reach what is stored. */
module MemStore {
  import opened Text
  import opened Ordering
  import opened Findings
  import opened Records
  import opened Slices
  import opened FindingRecords
  import opened StoreRecords
  import opened Correlate
  import opened MergingStore
  import opened Store

  /** The reference store. */
  class Mem {
    var jobs: map<string, JobRecord>
    var order: seq<string>
    var findings: map<string, seq<FindingRecord>>
    var defs: map<string, DefinitionRecord>
    var defOrder: seq<string>

    /** The records the store ever made and the arrays behind them: of jobs, of definitions, of findings and,
        within these, of the findings of each job. */
    ghost var jobObjects: set<object>
    ghost var definitionObjects: set<object>
    ghost var findingObjects: set<object>
    ghost var lists: map<string, set<object>>

    /** Everything reachable from the store is in here. */
    ghost function Owned(): set<object>
      reads `jobObjects, `definitionObjects, `findingObjects
    {
      jobObjects + definitionObjects + findingObjects
    }

    ghost predicate JobsHeld()
      reads `jobs, `jobObjects, jobObjects
    {
      forall id :: id in jobs ==>
        jobs[id] in jobObjects && jobs[id].head.adapters.backing in jobObjects && jobs[id].Repr() <= jobObjects
    }

    ghost function JobsState(): (r: map<string, Job>)
      requires JobsHeld()
      reads `jobs, `jobObjects, jobObjects
      ensures r.Keys == jobs.Keys && forall id :: id in jobs ==> r[id] == jobs[id].Value()
    {
      map id | id in jobs :: jobs[id].Value()
    }

    ghost predicate DefinitionsHeld()
      reads `defs, `definitionObjects, definitionObjects
    {
      forall id :: id in defs ==> defs[id] in definitionObjects && defs[id].Repr() <= definitionObjects
    }

    ghost function DefinitionsState(): (r: map<string, Definition>)
      requires DefinitionsHeld()
      reads `defs, `definitionObjects, definitionObjects
      ensures r.Keys == defs.Keys && forall id :: id in defs ==> r[id] == defs[id].Value()
    {
      map id | id in defs :: defs[id].Value()
    }

    /** Each list of findings lies in a region of its own. */
    ghost predicate FindingsHeld()
      reads `findings, `lists, `findingObjects, findingObjects
    {
      && lists.Keys == findings.Keys
      && (forall id :: id in findings ==>
           && lists[id] <= findingObjects
           && (forall r :: r in findings[id] ==> r in lists[id])
           && Separate(findings[id]) && Within(findings[id], lists[id]))
      && (forall a, b :: a in lists && b in lists && a != b ==> lists[a] !! lists[b])
    }

    ghost function FindingsState(): map<string, seq<Finding>>
      requires FindingsHeld()
      reads `findings, `lists, `findingObjects, findingObjects
    {
      map id | id in findings :: Values(findings[id])
    }

    /** Everything lies where it should, and merging findings can change neither jobs nor definitions. */
    ghost predicate Held()
      reads `jobs, `jobObjects, jobObjects, `defs, `definitionObjects, definitionObjects
      reads `findings, `lists, `findingObjects, findingObjects
    {
      && this !in Owned()
      && findingObjects !! jobObjects && findingObjects !! definitionObjects
      && JobsHeld() && DefinitionsHeld() && FindingsHeld()
    }

    ghost predicate Linked()
      reads `jobs, `findings, `defs, `defOrder
    {
      && (forall id :: id in findings ==> id in jobs)
      && NoDuplicates(defOrder) && (forall id :: id in defOrder ==> id in defs)
    }

    ghost predicate Valid()
      reads this, jobObjects, definitionObjects, findingObjects
    {
      Held() && Linked()
    }

    /** The value of the store. */
    ghost function State(): MemState
      requires Valid()
      reads this, jobObjects, definitionObjects, findingObjects
    {
      MemState(JobsState(), order, FindingsState(), DefinitionsState(), defOrder)
    }

    constructor ()
      ensures Valid() && State() == EMPTY_MEM && Owned() == {}
    {
      jobObjects, definitionObjects, findingObjects, lists := {}, {}, {}, map[];
      jobs, order, findings, defs, defOrder := map[], [], map[], map[], [];
    }

    // What a change elsewhere leaves alone.

    twostate lemma KeepsJobs()
      requires old(JobsHeld()) && jobs == old(jobs) && jobObjects == old(jobObjects)
      requires forall o :: o in old(jobObjects) ==> unchanged(o)
      ensures JobsHeld() && JobsState() == old(JobsState())
    {
      hide JobRecord.Value, JobsState, FlagArrays;
      forall id | id in jobs ensures jobs[id].head == old(jobs[id].head) && jobs[id].Repr() == old(jobs[id].Repr()) {}
      forall id | id in jobs ensures jobs[id].Value() == old(jobs[id].Value()) {
        assert jobs[id].Repr() <= jobObjects;
      }
    }

    twostate lemma KeepsDefinitions()
      requires old(DefinitionsHeld()) && defs == old(defs) && definitionObjects == old(definitionObjects)
      requires forall o :: o in old(definitionObjects) ==> unchanged(o)
      ensures DefinitionsHeld() && DefinitionsState() == old(DefinitionsState())
    {
      forall id | id in defs ensures defs[id].head == old(defs[id].head) && defs[id].Value() == old(defs[id].Value()) {
        assert defs[id].Repr() <= definitionObjects;
      }
    }

    twostate lemma KeepsFindings()
      requires old(FindingsHeld()) && findings == old(findings) && lists == old(lists) && findingObjects == old(findingObjects)
      requires forall o :: o in old(findingObjects) ==> unchanged(o)
      ensures FindingsHeld() && FindingsState() == old(FindingsState())
    {
      forall id, k | id in findings && 0 <= k < |findings[id]|
        ensures findings[id][k].head == old(findings[id][k].head) && findings[id][k].Repr() == old(findings[id][k].Repr())
             && findings[id][k].Value() == old(findings[id][k].Value()) {
        assert findings[id][k] in findings[id] && old(findings[id][k].Repr()) <= lists[id];
      }
      forall id | id in findings ensures Values(findings[id]) == old(Values(findings[id])) {}
    }

    // Taking the invariant apart and putting it together again.

    lemma ValidMeans()
      requires Valid()
      ensures Held() && Linked() && NoDuplicates(defOrder) && findingObjects <= Owned()
      ensures (forall id :: id in findings ==> id in jobs) && (forall id :: id in defOrder ==> id in defs)
    {
    }

    lemma StateIs()
      requires Held() && Linked()
      ensures JobsHeld() && DefinitionsHeld() && FindingsHeld() && Valid()
      ensures State() == MemState(JobsState(), order, FindingsState(), DefinitionsState(), defOrder)
    {
    }

    lemma HeldMeans(id: string)
      requires Held()
      ensures JobsHeld() && DefinitionsHeld() && FindingsHeld()
      ensures Owned() == jobObjects + definitionObjects + findingObjects && this !in Owned()
      ensures findingObjects !! jobObjects && findingObjects !! definitionObjects
      ensures Region(id) <= findingObjects
    {
    }

    lemma HeldFrom()
      requires JobsHeld() && DefinitionsHeld() && FindingsHeld()
      requires this !in jobObjects && this !in definitionObjects && this !in findingObjects
      requires findingObjects !! jobObjects && findingObjects !! definitionObjects
      ensures Held() && Owned() == jobObjects + definitionObjects + findingObjects
    {
    }

    /** Writes that stay outside the store's own objects do not show. */
    twostate lemma Untouched()
      requires old(Valid()) && unchanged(this)
      requires forall o :: o in old(Owned()) ==> unchanged(o)
      ensures Valid() && State() == old(State()) && Owned() == old(Owned())
    {
      hide JobsHeld, DefinitionsHeld, FindingsHeld, JobsState, DefinitionsState, FindingsState, NoDuplicates;
      KeepsJobs();
      KeepsDefinitions();
      KeepsFindings();
    }

    /** `m.jobs[j.ID] = j.Clone()`. */
    method PutJob(j: JobRecord)
      requires JobsHeld() && this !in jobObjects
      modifies `jobs, `jobObjects
      ensures JobsHeld() && JobsState() == old(JobsState())[old(j.Value()).id := old(j.Value())]
      ensures jobs.Keys == old(jobs.Keys) + {j.head.plain.id}
      ensures old(jobObjects) <= jobObjects && fresh(jobObjects - old(jobObjects))
    {
      hide JobRecord.Value, JobRecord.Repr, JobsState;
      ghost var was, v := JobsState(), j.Value();
      var id := j.head.plain.id;
      JobIdIs(j);
      var c := j.Clone();
      KeepsJobs();
      assert this !in c.Repr() && c.Value() == v;
      jobs := jobs[id := c];
      jobObjects := jobObjects + c.Repr();
      JobPut(was, id, v);
    }

    static lemma JobIdIs(j: JobRecord)
      ensures var v, p := j.Value(), j.head.plain;
              v.id == p.id && v.workspace == p.workspace && v.state == p.state && v.definitionId == p.definitionId
    {
    }

    lemma JobPut(was: map<string, Job>, id: string, v: Job)
      requires JobsHeld() && id in jobs && jobs[id].Value() == v
      requires jobs.Keys == was.Keys + {id} && forall i :: i in was && i != id ==> jobs[i].Value() == was[i]
      ensures JobsState() == was[id := v]
    {
    }
  
    /** Findings and definitions do not notice. */
    method PutJobBeside(j: JobRecord)
      requires Held()
      modifies `jobs, `jobObjects
      ensures Held() && fresh(Owned() - old(Owned()))
      ensures JobsState() == old(JobsState())[old(j.Value()).id := old(j.Value())]
      ensures jobs.Keys == old(jobs.Keys) + {j.head.plain.id}
      ensures FindingsState() == old(FindingsState()) && DefinitionsState() == old(DefinitionsState())
    {
      hide *;
      HeldMeans("");
      PutJob(j);
      KeepsFindings();
      KeepsDefinitions();
      HeldFrom();
    }

    /** The order lists are nobody else's business. */
    method SetOrder(jobOrder: seq<string>, definitionOrder: seq<string>)
      requires Held()
      modifies `order, `defOrder
      ensures order == jobOrder && defOrder == definitionOrder
      ensures Held() && JobsState() == old(JobsState()) && FindingsState() == old(FindingsState())
      ensures DefinitionsState() == old(DefinitionsState())
    {
      hide *;
      HeldMeans("");
      order, defOrder := jobOrder, definitionOrder;
      KeepsJobs();
      KeepsFindings();
      KeepsDefinitions();
      HeldFrom();
    }

    lemma JobsKeepLinks(was: set<string>)
      requires was <= jobs.Keys && (forall id :: id in findings ==> id in was)
      requires NoDuplicates(defOrder) && (forall id :: id in defOrder ==> id in defs)
      ensures Linked()
    {
    }

    method CreateJob(j: JobRecord) returns (a: Answer)
      requires Valid()
      modifies `jobs, `order, `defOrder, `jobObjects
      ensures Valid() && (State(), a) == MemStep(old(State()), Op.CreateJob(old(j.Value())))
      ensures fresh(Owned() - old(Owned()))
    {
      hide *;
      JobIdIs(j);
      ValidMeans();
      StateIs();
      CreateJobMeans(State(), j.Value());
      if j.head.plain.id in jobs {
        return Refuse(Duplicate);
      }
      PutJobBeside(j);
      SetOrder(order + [j.head.plain.id], defOrder);
      a := Ack;
      JobsKeepLinks(old(jobs.Keys));
      StateIs();
    }

    method UpdateJob(j: JobRecord) returns (a: Answer)
      requires Valid()
      modifies `jobs, `jobObjects
      ensures Valid() && (State(), a) == MemStep(old(State()), Op.UpdateJob(old(j.Value())))
      ensures fresh(Owned() - old(Owned()))
    {
      hide *;
      JobIdIs(j);
      ValidMeans();
      StateIs();
      UpdateJobMeans(State(), j.Value());
      if j.head.plain.id !in jobs {
        return Refuse(NotFound);
      }
      PutJobBeside(j);
      a := Ack;
      JobsKeepLinks(old(jobs.Keys));
      StateIs();
    }

    method GetJob(id: string) returns (j: JobRecord?, a: Answer)
      requires Valid()
      ensures Valid() && State() == old(State()) && (State(), a) == MemStep(State(), Op.GetJob(id))
      ensures j != null ==> fresh(j) && fresh(j.Repr()) && a == OneJob(j.Value())
      ensures j == null <==> a.Refuse?
    {
      hide DefinitionsHeld, FindingsHeld, JobsState, DefinitionsState, FindingsState, NoDuplicates, JobRecord.Value;
      if id !in jobs {
        return null, Refuse(NotFound);
      }
      j := jobs[id].Clone();
      a := OneJob(j.Value());
      Untouched();
    }
  
    method ListJobs(workspace: string) returns (js: seq<JobRecord>, a: Answer)
      requires Valid()
      ensures Valid() && State() == old(State()) && (State(), a) == MemStep(State(), Op.ListJobs(workspace))
      ensures forall k :: 0 <= k < |js| ==> fresh(js[k]) && fresh(js[k].Repr())
      ensures a.ManyJobs? && |a.jobs| == |js| && forall k :: 0 <= k < |js| ==> js[k].Value() == a.jobs[k]
    {
      hide DefinitionsHeld, FindingsHeld, JobsState, DefinitionsState, FindingsState, NoDuplicates, JobRecord.Value;
      hide JobsListed, JobsHeld, JobRecord.Repr;
      js := [];
      var out: seq<Job> := [];
      ghost var s := JobsState();
      var i := |order|;
      assert order[..i] == order && out + JobsListed(s, order, workspace) == JobsListed(s, order, workspace);
      while i > 0
        invariant 0 <= i <= |order|
        invariant |js| == |out|
        invariant forall k :: 0 <= k < |js| ==> fresh(js[k]) && fresh(js[k].Repr()) && js[k].Value() == out[k]
        invariant JobsHeld() && JobsState() == s
        invariant JobsListed(s, order, workspace) == out + JobsListed(s, order[..i], workspace)
      {
        i := i - 1;
        assert order[..i + 1][..i] == order[..i];
        var id := order[i];
        ListedStep(s, order[..i + 1], workspace);
        if id in jobs && (workspace == "" || jobs[id].head.plain.workspace == workspace) {
          JobIdIs(jobs[id]);
          ConcatAssociative(out, [s[id]], JobsListed(s, order[..i], workspace));
          js, out := AppendClone(js, out, jobs[id]);
          KeepsJobs();
        } else if id in jobs {
          JobIdIs(jobs[id]);
        }
      }
      NothingListed(s, workspace);
      assert order[..0] == [] && out + [] == out;
      a := ManyJobs(out);
      Untouched();
    }

    method ActiveJobs() returns (a: Answer)
      requires Valid()
      ensures Valid() && State() == old(State()) && (State(), a) == MemStep(State(), Op.ActiveJobs)
    {
      hide FindingsHeld, DefinitionsHeld, JobsState, DefinitionsState, FindingsState, NoDuplicates, JobRecord.Value, Active;
      var n := 0;
      var left := jobs.Keys;
      ghost var s := State();
      assert Active(s.jobs) == ActiveAmong(s.jobs, left) by { AllActive(s.jobs); }
      while left != {}
        invariant left <= jobs.Keys && State() == s
        invariant n + |ActiveAmong(s.jobs, left)| == |Active(s.jobs)|
        decreases left
      {
        var id :| id in left;
        ActiveStep(s.jobs, left, id);
        JobIdIs(jobs[id]);
        if !jobs[id].head.plain.state.Terminal() {
          n := n + 1;
        }
        left := left - {id};
      }
      assert ActiveAmong(s.jobs, {}) == {};
      a := Number(n);
    }

    method LastCompletedJob(definitionId: string, excludeId: string) returns (j: JobRecord?, a: Answer)
      requires Valid()
      ensures Valid() && State() == old(State()) && (State(), a) == MemStep(State(), Op.LastCompletedJob(definitionId, excludeId))
      ensures j != null ==> fresh(j) && fresh(j.Repr()) && a == OneJob(j.Value())
      ensures j == null <==> a.Refuse?
    {
      hide DefinitionsHeld, FindingsHeld, JobsState, DefinitionsState, FindingsState, NoDuplicates, JobRecord.Value;
      hide JobRecord.Repr, JobsHeld;
      ghost var s := State();
      if definitionId == "" {
        return null, Refuse(NotFound);
      }
      var i := |order|;
      assert order[..i] == order;
      while i > 0
        invariant 0 <= i <= |order|
        invariant JobsHeld() && JobsState() == s.jobs
        invariant LastCompleted(s.jobs, order, definitionId, excludeId) == LastCompleted(s.jobs, order[..i], definitionId, excludeId)
      {
        assert order[..i][..i - 1] == order[..i - 1];
        i := i - 1;
        var id := order[i];
        if id in jobs { JobIdIs(jobs[id]); }
        if id !in jobs || jobs[id].head.plain.id == excludeId {
          continue;
        }
        if jobs[id].head.plain.definitionId == definitionId && jobs[id].head.plain.state == Completed {
          assert IsRunOf(s.jobs, id, definitionId, excludeId);
          j := jobs[id].Clone();
          Untouched();
          return j, OneJob(j.Value());
        }
      }
      return null, Refuse(NotFound);
    }

    // ----- definitions -----

    static lemma DefinitionIdIs(d: DefinitionRecord)
      ensures d.Value().id == d.head.plain.id && d.Value().workspace == d.head.plain.workspace
    {
    }

    /** `m.defs[d.ID] = d.Clone()`. */
    method PutDefinition(d: DefinitionRecord)
      requires DefinitionsHeld() && this !in definitionObjects
      modifies `defs, `definitionObjects
      ensures DefinitionsHeld() && DefinitionsState() == old(DefinitionsState())[old(d.Value()).id := old(d.Value())]
      ensures defs.Keys == old(defs.Keys) + {d.head.plain.id}
      ensures old(definitionObjects) <= definitionObjects && fresh(definitionObjects - old(definitionObjects))
    {
      hide DefinitionRecord.Value, DefinitionRecord.Repr, DefinitionsState;
      ghost var was, v := DefinitionsState(), d.Value();
      var id := d.head.plain.id;
      DefinitionIdIs(d);
      var c := d.Clone();
      KeepsDefinitions();
      assert this !in c.Repr() && c.Value() == v;
      defs := defs[id := c];
      definitionObjects := definitionObjects + c.Repr();
      DefinitionPut(was, id, v);
    }

    lemma DefinitionPut(was: map<string, Definition>, id: string, v: Definition)
      requires DefinitionsHeld() && id in defs && defs[id].Value() == v
      requires defs.Keys == was.Keys + {id} && forall i :: i in was && i != id ==> defs[i].Value() == was[i]
      ensures DefinitionsState() == was[id := v]
    {
    }

    /** Findings and jobs do not notice. */
    method PutDefinitionBeside(d: DefinitionRecord)
      requires Held()
      modifies `defs, `definitionObjects
      ensures Held() && fresh(Owned() - old(Owned()))
      ensures DefinitionsState() == old(DefinitionsState())[old(d.Value()).id := old(d.Value())]
      ensures defs.Keys == old(defs.Keys) + {d.head.plain.id}
      ensures FindingsState() == old(FindingsState()) && JobsState() == old(JobsState())
    {
      hide *;
      HeldMeans("");
      PutDefinition(d);
      KeepsFindings();
      KeepsJobs();
      HeldFrom();
    }

    lemma DefinitionsKeepLinks()
      requires forall id :: id in findings ==> id in jobs
      requires NoDuplicates(defOrder) && (forall id :: id in defOrder ==> id in defs)
      ensures Linked()
    {
    }

    method CreateDefinition(d: DefinitionRecord) returns (a: Answer)
      requires Valid()
      modifies `defs, `order, `defOrder, `definitionObjects
      ensures Valid() && (State(), a) == MemStep(old(State()), Op.CreateDefinition(old(d.Value())))
      ensures fresh(Owned() - old(Owned()))
    {
      hide *;
      DefinitionIdIs(d);
      ValidMeans();
      StateIs();
      CreateDefinitionMeans(State(), d.Value());
      if d.head.plain.id in defs {
        return Refuse(Duplicate);
      }
      NewAtEnd(defOrder, d.head.plain.id);
      PutDefinitionBeside(d);
      SetOrder(order, defOrder + [d.head.plain.id]);
      a := Ack;
      DefinitionsKeepLinks();
      StateIs();
    }

    method UpdateDefinition(d: DefinitionRecord) returns (a: Answer)
      requires Valid()
      modifies `defs, `definitionObjects
      ensures Valid() && (State(), a) == MemStep(old(State()), Op.UpdateDefinition(old(d.Value())))
      ensures fresh(Owned() - old(Owned()))
    {
      hide *;
      DefinitionIdIs(d);
      ValidMeans();
      StateIs();
      UpdateDefinitionMeans(State(), d.Value());
      if d.head.plain.id !in defs {
        return Refuse(NotFound);
      }
      PutDefinitionBeside(d);
      a := Ack;
      DefinitionsKeepLinks();
      StateIs();
    }

    method GetDefinition(id: string) returns (d: DefinitionRecord?, a: Answer)
      requires Valid()
      ensures Valid() && State() == old(State()) && (State(), a) == MemStep(State(), Op.GetDefinition(id))
      ensures d != null ==> fresh(d) && fresh(d.Repr()) && a == OneDefinition(d.Value())
      ensures d == null <==> a.Refuse?
    {
      hide JobsHeld, FindingsHeld, JobsState, DefinitionsState, FindingsState, NoDuplicates, DefinitionRecord.Value;
      hide FoldIn, JobsListed, DefinitionsListed, LastCompleted, Active, Without;
      if id !in defs {
        return null, Refuse(NotFound);
      }
      d := defs[id].Clone();
      a := OneDefinition(d.Value());
      Untouched();
    }

    method ListDefinitions(workspace: string) returns (ds: seq<DefinitionRecord>, a: Answer)
      requires Valid()
      ensures Valid() && State() == old(State()) && (State(), a) == MemStep(State(), Op.ListDefinitions(workspace))
      ensures forall k :: 0 <= k < |ds| ==> fresh(ds[k]) && fresh(ds[k].Repr())
      ensures a.ManyDefinitions? && |a.definitions| == |ds| && forall k :: 0 <= k < |ds| ==> ds[k].Value() == a.definitions[k]
    {
      hide JobsHeld, FindingsHeld, JobsState, DefinitionsState, FindingsState, NoDuplicates, DefinitionRecord.Value;
      hide DefinitionsHeld;
      ds := [];
      var out: seq<Definition> := [];
      ghost var s := DefinitionsState();
      for i := 0 to |defOrder|
        invariant |ds| == |out|
        invariant forall k :: 0 <= k < |ds| ==> fresh(ds[k]) && fresh(ds[k].Repr()) && ds[k].Value() == out[k]
        invariant DefinitionsHeld() && DefinitionsState() == s
        invariant out == DefinitionsListed(s, defOrder[..i], workspace)
      {
        assert defOrder[..i + 1][..i] == defOrder[..i];
        var id := defOrder[i];
        if id in defs { DefinitionIdIs(defs[id]); }
        if id !in defs || (workspace != "" && defs[id].head.plain.workspace != workspace) {
          continue;
        }
        var c := defs[id].Clone();
        KeepsDefinitions();
        ds, out := ds + [c], out + [c.Value()];
      }
      assert defOrder[..|defOrder|] == defOrder;
      a := ManyDefinitions(out);
      Untouched();
    }

    method DeleteDefinition(id: string) returns (a: Answer)
      requires Valid()
      modifies `defs, `defOrder
      ensures Valid() && (State(), a) == MemStep(old(State()), Op.DeleteDefinition(id))
      ensures Owned() == old(Owned())
    {
      hide *;
      ValidMeans();
      StateIs();
      DeleteDefinitionMeans(State(), id);
      if id !in defs {
        return Refuse(NotFound);
      }
      WithoutMembers(defOrder, id);
      DropBeside(id);
      a := Ack;
      DropKeepsLinks(old(defs.Keys), old(defOrder), id);
      StateIs();
    }

    lemma DropKeepsLinks(was: set<string>, before: seq<string>, id: string)
      requires forall i :: i in findings ==> i in jobs
      requires NoDuplicates(defOrder) && defs.Keys == was - {id} && forall i :: i in before ==> i in was
      requires forall y :: y in defOrder <==> y in before && y != id
      ensures Linked()
    {
    }

    /** The entry goes from the map and from the order; findings and jobs do not notice. */
    method DropBeside(id: string)
      requires Held()
      modifies `defs, `defOrder
      ensures Held() && defs == old(defs) - {id} && defOrder == Without(old(defOrder), id)
      ensures DefinitionsState() == old(DefinitionsState()) - {id}
      ensures FindingsState() == old(FindingsState()) && JobsState() == old(JobsState())
    {
      hide *;
      HeldMeans("");
      var left := DropFromOrder(defOrder, id);
      defOrder := left;
      KeepsDefinitions();
      DropDefinition(id);
      KeepsFindings();
      KeepsJobs();
      HeldFrom();
    }

    /** `delete(m.defs, id)`. */
    method DropDefinition(id: string)
      requires DefinitionsHeld() && this !in definitionObjects
      modifies `defs
      ensures DefinitionsHeld() && DefinitionsState() == old(DefinitionsState()) - {id} && defs == old(defs) - {id}
    {
      hide DefinitionRecord.Value, DefinitionRecord.Repr;
      defs := defs - {id};
    }

    // ----- findings -----

    ghost function Region(id: string): set<object>
      reads `lists
    {
      if id in lists then lists[id] else {}
    }

    lemma RegionInside(id: string)
      requires FindingsHeld()
      ensures Region(id) <= findingObjects
    {
    }

    static lemma ThenBeyond(rs: seq<FindingRecord>, all: set<object>, some: set<object>)
      requires Beyond(rs, all) && some <= all
      ensures Beyond(rs, some)
    {
    }

    method AddFindings(jobId: string, fs: seq<FindingRecord>) returns (a: Answer)
      requires Valid() && Beyond(fs, Owned())
      modifies `findings, `lists, `findingObjects, Region(jobId)
      ensures Valid() && (State(), a) == MemStep(old(State()), Op.AddFindings(jobId, old(Values(fs))))
      ensures Values(fs) == old(Values(fs))
      ensures fresh(Owned() - old(Owned()))
    {
      hide *;
      ValidMeans();
      StateIs();
      AddFindingsMeans(State(), jobId, Values(fs));
      ThenBeyond(fs, Owned(), findingObjects);
      if jobId !in jobs {
        return Refuse(NotFound);
      }
      MergeBeside(jobId, fs);
      StillLinked(old(findings.Keys), jobId);
      StateIs();
      a := Ack;
    }

    lemma StillLinked(was: set<string>, jobId: string)
      requires findings.Keys == was + {jobId} && jobId in jobs && forall id :: id in was ==> id in jobs
      requires NoDuplicates(defOrder) && (forall id :: id in defOrder ==> id in defs)
      ensures Linked()
    {
    }

    /** Jobs and definitions do not notice. */
    method MergeBeside(jobId: string, fs: seq<FindingRecord>)
      requires Held() && Beyond(fs, findingObjects)
      modifies `findings, `lists, `findingObjects, Region(jobId)
      ensures Held() && findings.Keys == old(findings.Keys) + {jobId}
      ensures fresh(Owned() - old(Owned())) && Values(fs) == old(Values(fs))
      ensures FindingsState() ==
              old(FindingsState())[jobId := FoldIn(FindingsOf(old(FindingsState()), jobId), old(Values(fs)))]
      ensures JobsState() == old(JobsState()) && DefinitionsState() == old(DefinitionsState())
      ensures jobs == old(jobs) && defs == old(defs) && order == old(order) && defOrder == old(defOrder)
    {
      hide *;
      HeldMeans(jobId);
      MergeList(jobId, fs);
      KeepsJobs();
      KeepsDefinitions();
      HeldFrom();
    }

    /** `m.findings[jobID] = mergeInto(m.findings[jobID], fs)`. */
    method MergeList(jobId: string, fs: seq<FindingRecord>)
      requires FindingsHeld() && this !in findingObjects && Beyond(fs, findingObjects)
      modifies `findings, `lists, `findingObjects, Region(jobId)
      ensures FindingsHeld() && findings.Keys == old(findings.Keys) + {jobId}
      ensures FindingsState() ==
              old(FindingsState())[jobId := FoldIn(FindingsOf(old(FindingsState()), jobId), old(Values(fs)))]
      ensures Values(fs) == old(Values(fs))
      ensures old(findingObjects) <= findingObjects && fresh(findingObjects - old(findingObjects))
    {
      hide FoldIn, FindingsState, FindingRecord.Value, FindingRecord.Repr, FindingsHeld, Separate, Within, Values, Beyond, FindingsOf;
      ghost var vals := FindingsState();
      var existing: seq<FindingRecord> := if jobId in findings then findings[jobId] else [];
      ListStored(jobId, existing, fs);
      var merged;
      ghost var region;
      merged, region := MergeInto(existing, fs, Region(jobId));
      Install(jobId, merged, region, fs);
      OtherListsKept(jobId);
      FindingsPut(vals, jobId, merged, region, old(lists), old(findingObjects));
    }

    /** Files the list in the maps. */
    method Install(jobId: string, merged: seq<FindingRecord>, ghost region: set<object>, ghost fs: seq<FindingRecord>)
      requires Separate(merged) && Within(merged, region) && this !in region
      modifies `findings, `lists, `findingObjects
      ensures findings == old(findings)[jobId := merged] && lists == old(lists)[jobId := region]
      ensures findingObjects == old(findingObjects) + region
      ensures Separate(merged) && Within(merged, region) && Values(merged) == old(Values(merged))
      ensures Values(fs) == old(Values(fs))
    {
      findings, lists, findingObjects := findings[jobId := merged], lists[jobId := region], findingObjects + region;
    }

    lemma ListStored(jobId: string, existing: seq<FindingRecord>, fs: seq<FindingRecord>)
      requires FindingsHeld() && Beyond(fs, findingObjects)
      requires existing == if jobId in findings then findings[jobId] else []
      ensures Separate(existing) && Within(existing, Region(jobId)) && Beyond(fs, Region(jobId))
      ensures Values(existing) == FindingsOf(FindingsState(), jobId) && Region(jobId) <= findingObjects
    {
    }

    /** The lists of other jobs are as they were. */
    twostate lemma OtherListsKept(jobId: string)
      requires old(FindingsHeld())
      requires forall o :: o in old(findingObjects) && o !in old(Region(jobId)) ==> unchanged(o)
      ensures old(lists.Keys == findings.Keys == FindingsState().Keys)
      ensures forall id :: id in old(findings) && id != jobId ==>
                && Separate(old(findings)[id]) && Within(old(findings)[id], old(lists)[id])
                && Values(old(findings)[id]) == old(FindingsState())[id]
                && old(lists)[id] <= old(findingObjects) && old(lists)[id] !! old(Region(jobId))
                && forall r :: r in old(findings)[id] ==> r in old(lists)[id]
      ensures forall a, b :: a in old(lists) && b in old(lists) && a != b ==> old(lists)[a] !! old(lists)[b]
    {
      ghost var fs: map<string, seq<FindingRecord>>, ls: map<string, set<object>> := old(findings), old(lists);
      forall id, k | id in fs && id != jobId && 0 <= k < |fs[id]|
        ensures fs[id][k].head == old(fs[id][k].head) && fs[id][k].Repr() == old(fs[id][k].Repr())
             && fs[id][k].Value() == old(fs[id][k].Value()) {
        assert fs[id][k] in fs[id] && old(fs[id][k].Repr()) <= ls[id];
        assert jobId in ls ==> ls[id] !! ls[jobId];
      }
      forall id | id in fs && id != jobId
        ensures Values(fs[id]) == old(FindingsState())[id] && Separate(fs[id]) && Within(fs[id], ls[id]) {
        assert old(Separate(findings[id])) && old(Within(findings[id], lists[id]));
      }
    }

    lemma FindingsPut(vals: map<string, seq<Finding>>, jobId: string, merged: seq<FindingRecord>, region: set<object>,
                      was: map<string, set<object>>, all: set<object>)
      requires jobId in findings && findings[jobId] == merged && lists == was[jobId := region] && findingObjects == all + region
      requires findings.Keys == vals.Keys + {jobId} && was.Keys == vals.Keys
      requires Separate(merged) && Within(merged, region)
      requires forall id :: id in vals && id != jobId ==>
                 && Separate(findings[id]) && Within(findings[id], was[id]) && Values(findings[id]) == vals[id]
                 && was[id] <= all && was[id] !! region && forall r :: r in findings[id] ==> r in was[id]
      requires forall a, b :: a in was && b in was && a != b ==> was[a] !! was[b]
      ensures FindingsHeld() && FindingsState() == vals[jobId := Values(merged)]
    {
      assert forall r :: r in merged ==> r in region by { MembersWithin(merged, region); }
      DisjointPut(was, jobId, region);
      hide Separate, Within, Values, FindingRecord.Repr, FindingRecord.Value;
      assert FindingsHeld();
      FindingsRead(vals, jobId);
    }

    static lemma DisjointPut(was: map<string, set<object>>, jobId: string, region: set<object>)
      requires forall a, b :: a in was && b in was && a != b ==> was[a] !! was[b]
      requires forall a :: a in was && a != jobId ==> was[a] !! region
      ensures var now := was[jobId := region]; forall a, b :: a in now && b in now && a != b ==> now[a] !! now[b]
    {
    }

    lemma FindingsRead(vals: map<string, seq<Finding>>, jobId: string)
      requires FindingsHeld() && jobId in findings && findings.Keys == vals.Keys + {jobId}
      requires forall id :: id in vals && id != jobId ==> Values(findings[id]) == vals[id]
      ensures FindingsState() == vals[jobId := Values(findings[jobId])]
    {
      hide Values, FindingsHeld;
    }

    static lemma MembersWithin(rs: seq<FindingRecord>, owned: set<object>)
      requires Within(rs, owned)
      ensures forall r :: r in rs ==> r in owned
    {
      hide FindingRecord.Repr;
    }

    method GetFindings(jobId: string) returns (fs: seq<FindingRecord>, a: Answer)
      requires Valid()
      ensures Valid() && State() == old(State()) && (State(), a) == MemStep(State(), Op.GetFindings(jobId))
      ensures forall k :: 0 <= k < |fs| ==> fresh(fs[k]) && fresh(fs[k].Repr())
      ensures if a.Refuse? then fs == [] else a == SomeFindings(Values(fs))
    {
      hide JobsHeld, DefinitionsHeld, JobsState, DefinitionsState, NoDuplicates;
      hide FoldIn, JobsListed, DefinitionsListed, LastCompleted, Active, Without, FindingRecord.Value, FindingRecord.Repr;
      fs := [];
      if jobId !in jobs {
        return fs, Refuse(NotFound);
      }
      var existing: seq<FindingRecord> := if jobId in findings then findings[jobId] else [];
      var out;
      fs, out := CloneAll(existing);
      Untouched();
      assert out == FindingsOf(FindingsState(), jobId);
      a := SomeFindings(out);
    }
  }

  /** `finding.CloneAll`. */
  method CloneAll(fs: seq<FindingRecord>) returns (cs: seq<FindingRecord>, out: seq<Finding>)
    ensures forall k :: 0 <= k < |cs| ==> fresh(cs[k]) && fresh(cs[k].Repr())
    ensures Values(cs) == out == old(Values(fs))
  {
    hide FindingRecord.Value, FindingRecord.Repr;
    cs, out := [], [];
    ghost var vals := Values(fs);
    for i := 0 to |fs|
      invariant |cs| == |out| == i && out == vals[..i]
      invariant forall k :: 0 <= k < i ==> fresh(cs[k]) && fresh(cs[k].Repr()) && cs[k].Value() == out[k]
      invariant Values(fs) == vals
    {
      TakeNext(vals, i);
      cs, out := AppendFinding(cs, out, fs, i);
    }
    assert vals[..|fs|] == vals;
  }

  /** `out = append(out, f.Clone())`; the copies made before are as they were. */
  method AppendFinding(cs: seq<FindingRecord>, out: seq<Finding>, fs: seq<FindingRecord>, i: nat)
    returns (cs': seq<FindingRecord>, out': seq<Finding>)
    requires i < |fs| && |cs| == |out| && forall k :: 0 <= k < |cs| ==> cs[k].Value() == out[k]
    ensures out' == out + [old(fs[i].Value())] && |cs'| == |out'| && cs'[..|cs|] == cs
    ensures forall k :: 0 <= k < |cs'| ==> cs'[k].Value() == out'[k]
    ensures forall k :: 0 <= k < |cs| ==> cs[k].Repr() == old(cs[k].Repr())
    ensures fresh(cs'[|cs|]) && fresh(cs'[|cs|].Repr())
    ensures Values(fs) == old(Values(fs))
  {
    var c := fs[i].Clone();
    cs', out' := cs + [c], out + [c.Value()];
  }

  /** `out = append(out, j.Clone())`; the copies made before are as they were. */
  method AppendClone(js: seq<JobRecord>, out: seq<Job>, j: JobRecord) returns (js': seq<JobRecord>, out': seq<Job>)
    requires |js| == |out| && forall k :: 0 <= k < |js| ==> js[k].Value() == out[k]
    ensures out' == out + [old(j.Value())] && |js'| == |out'| && js'[..|js|] == js
    ensures forall k :: 0 <= k < |js'| ==> js'[k].Value() == out'[k]
    ensures forall k :: 0 <= k < |js| ==> js[k].Repr() == old(js[k].Repr())
    ensures fresh(js'[|js|]) && fresh(js'[|js|].Repr())
  {
    var c := j.Clone();
    js', out' := js + [c], out + [c.Value()];
  }

  ghost function ActiveAmong(jobs: map<string, Job>, ids: set<string>): set<string>
    requires ids <= jobs.Keys
  {
    set id | id in ids && !jobs[id].state.Terminal()
  }

  lemma NewAtEnd(s: seq<string>, x: string)
    requires NoDuplicates(s) && x !in s
    ensures NoDuplicates(s + [x])
  {
  }

  lemma AllActive(jobs: map<string, Job>)
    ensures Active(jobs) == ActiveAmong(jobs, jobs.Keys)
  {
  }

  lemma ActiveStep(jobs: map<string, Job>, ids: set<string>, id: string)
    requires ids <= jobs.Keys && id in ids
    ensures |ActiveAmong(jobs, ids)| == |ActiveAmong(jobs, ids - {id})| + if jobs[id].state.Terminal() then 0 else 1
  {
    var rest := ActiveAmong(jobs, ids - {id});
    if jobs[id].state.Terminal() {
      assert ActiveAmong(jobs, ids) == rest;
    } else {
      assert ActiveAmong(jobs, ids) == rest + {id};
    }
  }

  lemma ListedStep(jobs: map<string, Job>, order: seq<string>, workspace: string)
    requires order != []
    ensures var id, rest := order[|order| - 1], JobsListed(jobs, order[..|order| - 1], workspace);
            JobsListed(jobs, order, workspace) ==
            if id in jobs && (workspace == "" || jobs[id].workspace == workspace) then [jobs[id]] + rest else rest
  {
  }

  lemma NothingListed(jobs: map<string, Job>, workspace: string)
    ensures JobsListed(jobs, [], workspace) == []
  {
  }
}
