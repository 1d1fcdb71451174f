/** internal/store/file.go as it is: a cache of maps and order lists updated in place beside the files it
    mirrors. Every operation is proved to be the corresponding step of `Store.FileStep`. */
module FileStore {
  import opened Text
  import opened Ordering
  import opened Findings
  import opened FindingRecords
  import opened MergingStore
  import opened Records
  import opened Correlate
  import opened Store
  import MemStore

  /** One temporary file: a name nobody uses, and where the write fails, if it does. */
  datatype Temp = Temp(name: string, fault: WriteFault)

  ghost predicate Unused(t: Temp, dir: Directory, target: string) {
    t.name !in dir && t.name != target
  }

  class File {
    var jobs: map<string, Job>
    var order: seq<string>
    var defs: map<string, Definition>
    var defOrder: seq<string>
    var disk: Disk

    ghost function State(): FileState
      reads this
    {
      FileState(jobs, order, defs, defOrder, disk)
    }

    /** A store over a directory that has not been read yet. */
    constructor (disk: Disk)
      ensures State() == FileState(map[], [], map[], [], disk)
    {
      this.disk := disk;
      jobs, order, defs, defOrder := map[], [], map[], [];
    }

    /** Reads every job back, and gives up at the first that cannot be read; what cannot be decoded is skipped. */
    method Load(names: seq<string>, readable: string -> bool) returns (ok: bool)
      requires jobs == map[] && order == []
      modifies `jobs, `order
      ensures ok <==> AllReadable(disk.jobs, names, readable)
      ensures var js := SortBy(JobBefore, Collect(PickJob, disk.jobs, names));
              ok ==> jobs == IndexBy(JobIdOf, js) && order == MapSeq(JobIdOf, js)
    {
      hide SortBy, JobBefore, IsDocumentName, Collect, AllReadable;
      var all;
      ok, all := ReadJobs(names, readable);
      if !ok {
        return;
      }
      var js := SortBy(JobBefore, all);
      for i := 0 to |js|
        invariant jobs == IndexBy(JobIdOf, js[..i]) && order == MapSeq(JobIdOf, js[..i])
      {
        assert js[..i + 1][..i] == js[..i];
        jobs := jobs[js[i].id := js[i]];
        order := order + [js[i].id];
      }
      assert js[..|js|] == js;
    }

    method ReadJobs(names: seq<string>, readable: string -> bool) returns (ok: bool, all: seq<Job>)
      ensures ok <==> AllReadable(disk.jobs, names, readable)
      ensures ok ==> all == Collect(PickJob, disk.jobs, names)
    {
      hide IsDocumentName, Collect;
      all := [];
      NothingCollected(PickJob, disk.jobs);
      for i := 0 to |names|
        invariant all == Collect(PickJob, disk.jobs, names[..i]) && AllReadable(disk.jobs, names[..i], readable)
      {
        TakeNext(names, i);
        CollectNext(PickJob, disk.jobs, names[..i], names[i]);
        var name := names[i];
        if !IsDocumentName(name) {
          continue;
        }
        if name !in disk.jobs || !readable(name) {
          return false, all;
        }
        if !disk.jobs[name].JobDocument? {
          continue;
        }
        all := all + [disk.jobs[name].job];
      }
      ok := true;
      assert names[..|names|] == names;
    }

    /** Reads the definitions back; one that cannot be read or decoded is skipped. */
    method LoadDefinitions(names: seq<string>, readable: string -> bool)
      requires defs == map[] && defOrder == []
      modifies `defs, `defOrder
      ensures var ds := SortBy(DefinitionBefore, Collect(PickDefinition, disk.definitions, Filter(readable, names)));
              defs == IndexBy(DefinitionIdOf, ds) && defOrder == MapSeq(DefinitionIdOf, ds)
    {
      hide SortBy, DefinitionBefore, IsDocumentName, Collect, Filter;
      var all := ReadDefinitions(names, readable);
      var ds := SortBy(DefinitionBefore, all);
      for i := 0 to |ds|
        invariant defs == IndexBy(DefinitionIdOf, ds[..i]) && defOrder == MapSeq(DefinitionIdOf, ds[..i])
      {
        assert ds[..i + 1][..i] == ds[..i];
        defs := defs[ds[i].id := ds[i]];
        defOrder := defOrder + [ds[i].id];
      }
      assert ds[..|ds|] == ds;
    }

    method ReadDefinitions(names: seq<string>, readable: string -> bool) returns (all: seq<Definition>)
      ensures all == Collect(PickDefinition, disk.definitions, Filter(readable, names))
    {
      hide IsDocumentName, Collect, Filter;
      all := [];
      NothingCollected(PickDefinition, disk.definitions);
      FilterNone(readable, names[..0]);
      for i := 0 to |names|
        invariant all == Collect(PickDefinition, disk.definitions, Filter(readable, names[..i]))
      {
        TakeNext(names, i);
        FilterStep(readable, names[..i], names[i]);
        CollectNext(PickDefinition, disk.definitions, Filter(readable, names[..i]), names[i]);
        var name := names[i];
        if !IsDocumentName(name) || name !in disk.definitions || !readable(name) || !disk.definitions[name].DefinitionDocument? {
          continue;
        }
        all := all + [disk.definitions[name].d];
      }
      assert names[..|names|] == names;
    }

    // ----- jobs -----

    method CreateJob(j: Job, t: Temp) returns (a: Answer)
      requires Unused(t, disk.jobs, FileName(j.id))
      modifies this
      ensures (State(), a) == FileStep(old(State()), Op.CreateJob(j), t.fault == NoFault)
    {
      if !SafeId(j.id) {
        return Refuse(UnsafeId);
      }
      if j.id in jobs {
        return Refuse(Duplicate);
      }
      var dir, ok := WriteAtomic(disk.jobs, FileName(j.id), t.name, JobDocument(j), t.fault, false);
      disk := disk.(jobs := dir);
      if !ok {
        return Refuse(Io);
      }
      jobs := jobs[j.id := j];
      order := order + [j.id];
      return Ack;
    }

    method UpdateJob(j: Job, t: Temp) returns (a: Answer)
      requires Unused(t, disk.jobs, FileName(j.id))
      modifies this
      ensures (State(), a) == FileStep(old(State()), Op.UpdateJob(j), t.fault == NoFault)
    {
      if !SafeId(j.id) {
        return Refuse(UnsafeId);
      }
      if j.id !in jobs {
        return Refuse(NotFound);
      }
      var dir, ok := WriteAtomic(disk.jobs, FileName(j.id), t.name, JobDocument(j), t.fault, false);
      disk := disk.(jobs := dir);
      if !ok {
        return Refuse(Io);
      }
      jobs := jobs[j.id := j];
      return Ack;
    }

    method GetJob(id: string) returns (a: Answer)
      ensures (State(), a) == FileStep(State(), Op.GetJob(id), true)
    {
      if id !in jobs {
        return Refuse(NotFound);
      }
      return OneJob(jobs[id]);
    }

    /** Newest first: the order list is walked from its end. */
    method ListJobs(workspace: string) returns (a: Answer)
      requires forall id :: id in order ==> id in jobs
      ensures (State(), a) == FileStep(State(), Op.ListJobs(workspace), true)
    {
      hide JobsListed;
      var out: seq<Job> := [];
      var i := |order|;
      assert order[..|order|] == order;
      while i > 0
        invariant 0 <= i <= |order|
        invariant out + JobsListed(jobs, order[..i], workspace) == JobsListed(jobs, order, workspace)
      {
        i := i - 1;
        ListedStep(jobs, order[..i + 1], workspace);
        assert order[..i + 1][..i] == order[..i];
        var j := jobs[order[i]] by { assert order[i] in order; }
        if workspace != "" && j.workspace != workspace {
          continue;
        }
        ConcatAssociative(out, [j], JobsListed(jobs, order[..i], workspace));
        out := out + [j];
      }
      ListedNone(jobs, workspace);
      assert order[..0] == [] && out + [] == out;
      return ManyJobs(out);
    }

    method ActiveJobs() returns (a: Answer)
      ensures (State(), a) == FileStep(State(), Op.ActiveJobs, true)
    {
      var n := 0;
      var left := jobs.Keys;
      assert Active(jobs) == MemStore.ActiveAmong(jobs, left);
      while left != {}
        invariant left <= jobs.Keys
        invariant n + |MemStore.ActiveAmong(jobs, left)| == |Active(jobs)|
        decreases |left|
      {
        var id :| id in left;
        MemStore.ActiveStep(jobs, left, id);
        if !jobs[id].state.Terminal() {
          n := n + 1;
        }
        left := left - {id};
      }
      assert MemStore.ActiveAmong(jobs, {}) == {};
      return Number(n);
    }

    method LastCompletedJob(definitionId: string, excludeId: string) returns (a: Answer)
      ensures (State(), a) == FileStep(State(), Op.LastCompletedJob(definitionId, excludeId), true)
    {
      var j := LastCompletedLoop(jobs, order, definitionId, excludeId);
      return if j.None? then Refuse(NotFound) else OneJob(j.value);
    }

    // ----- findings -----

    /** Decodes the stored findings into new records, each over arrays of its own. */
    method ReadRecords(jobId: string) returns (rs: seq<FindingRecord>, ghost owned: set<object>)
      ensures Separate(rs) && Within(rs, owned) && fresh(owned)
      ensures Values(rs) == ReadFindings(disk, jobId)
    {
      hide FindingRecord.Value, FindingRecord.Repr, ReadFindings;
      rs, owned := [], {};
      var fs := ReadFindings(disk, jobId);
      for i := 0 to |fs|
        invariant |rs| == i && fresh(owned)
        invariant Separate(rs) && Within(rs, owned)
        invariant forall k :: 0 <= k < i ==> rs[k].Value() == fs[k]
      {
        var r := new FindingRecord(fs[i]);
        rs, owned := rs + [r], owned + r.Repr();
      }
    }

    /** Reads, merges, writes the whole list back; the caller's records are only read. */
    method AddFindings(jobId: string, fs: seq<FindingRecord>, io: bool, t: Temp) returns (a: Answer)
      requires Unused(t, disk.findings, FileName(jobId))
      modifies this
      ensures (State(), a) == FileStep(old(State()), Op.AddFindings(jobId, old(Values(fs))), io && t.fault == NoFault)
      ensures Values(fs) == old(Values(fs))
    {
      hide FoldIn, StripAll, ReadFindings, SafeId;
      if !SafeId(jobId) {
        return Refuse(UnsafeId);
      }
      if jobId !in jobs {
        return Refuse(NotFound);
      }
      if !io {
        return Refuse(Io);
      }
      var contents := Merged(jobId, fs);
      var dir, ok := WriteAtomic(disk.findings, FileName(jobId), t.name, FindingsDocument(StripAll(contents)), t.fault, false);
      disk := disk.(findings := dir);
      if !ok {
        return Refuse(Io);
      }
      return Ack;
    }

    /** What is on disk with the new findings folded in. */
    method Merged(jobId: string, fs: seq<FindingRecord>) returns (contents: seq<Finding>)
      ensures contents == FoldIn(ReadFindings(disk, jobId), old(Values(fs)))
      ensures Values(fs) == old(Values(fs))
    {
      hide FoldIn, ReadFindings, Separate, Within, FindingRecord.Value;
      ghost var owned;
      var existing;
      ghost var vals, listed := Values(fs), ReadFindings(disk, jobId);
      existing, owned := ReadRecords(jobId);
      assert Beyond(fs, owned);
      assert Values(fs) == vals;
      var merged;
      merged, owned := MergeInto(existing, fs, owned);
      assert Values(merged) == FoldIn(listed, vals);
      contents := Contents(merged);
    }

    method GetFindings(jobId: string, io: bool) returns (a: Answer)
      ensures (State(), a) == FileStep(State(), Op.GetFindings(jobId), io)
    {
      if jobId !in jobs {
        return Refuse(NotFound);
      }
      if !io {
        return Refuse(Io);
      }
      return SomeFindings(ReadFindings(disk, jobId));
    }

    // ----- definitions -----

    method CreateDefinition(d: Definition, t: Temp) returns (a: Answer)
      requires Unused(t, disk.definitions, FileName(d.id))
      modifies this
      ensures (State(), a) == FileStep(old(State()), Op.CreateDefinition(d), t.fault == NoFault)
    {
      if !SafeId(d.id) {
        return Refuse(UnsafeId);
      }
      if d.id in defs {
        return Refuse(Duplicate);
      }
      var dir, ok := WriteAtomic(disk.definitions, FileName(d.id), t.name, DefinitionDocument(d), t.fault, false);
      disk := disk.(definitions := dir);
      if !ok {
        return Refuse(Io);
      }
      defs := defs[d.id := d];
      defOrder := defOrder + [d.id];
      return Ack;
    }

    method UpdateDefinition(d: Definition, t: Temp) returns (a: Answer)
      requires Unused(t, disk.definitions, FileName(d.id))
      modifies this
      ensures (State(), a) == FileStep(old(State()), Op.UpdateDefinition(d), t.fault == NoFault)
    {
      if !SafeId(d.id) {
        return Refuse(UnsafeId);
      }
      if d.id !in defs {
        return Refuse(NotFound);
      }
      var dir, ok := WriteAtomic(disk.definitions, FileName(d.id), t.name, DefinitionDocument(d), t.fault, false);
      disk := disk.(definitions := dir);
      if !ok {
        return Refuse(Io);
      }
      defs := defs[d.id := d];
      return Ack;
    }

    method GetDefinition(id: string) returns (a: Answer)
      ensures (State(), a) == FileStep(State(), Op.GetDefinition(id), true)
    {
      if id !in defs {
        return Refuse(NotFound);
      }
      return OneDefinition(defs[id]);
    }

    method ListDefinitions(workspace: string) returns (a: Answer)
      ensures (State(), a) == FileStep(State(), Op.ListDefinitions(workspace), true)
    {
      var out: seq<Definition> := [];
      for i := 0 to |defOrder|
        invariant out == DefinitionsListed(defs, defOrder[..i], workspace)
      {
        assert defOrder[..i + 1][..i] == defOrder[..i];
        var id := defOrder[i];
        if id !in defs || (workspace != "" && defs[id].workspace != workspace) {
          continue;
        }
        out := out + [defs[id]];
      }
      assert defOrder[..|defOrder|] == defOrder;
      return ManyDefinitions(out);
    }

    method DeleteDefinition(id: string, io: bool) returns (a: Answer)
      modifies this
      ensures (State(), a) == FileStep(old(State()), Op.DeleteDefinition(id), io)
    {
      if !SafeId(id) {
        return Refuse(UnsafeId);
      }
      if id !in defs {
        return Refuse(NotFound);
      }
      if !io {
        return Refuse(Io);
      }
      disk := disk.(definitions := disk.definitions - {FileName(id)});
      defs := defs - {id};
      defOrder := DropFromOrder(defOrder, id);
      return Ack;
    }
  }

  /** Every document among the names is there and can be read. */
  predicate AllReadable(dir: Directory, names: seq<string>, readable: string -> bool) {
    forall name :: name in names && IsDocumentName(name) ==> name in dir && readable(name)
  }

  lemma NothingCollected<T>(pick: Document -> Option<T>, dir: Directory)
    ensures Collect(pick, dir, []) == []
  {
  }

  lemma CollectNext<T>(pick: Document -> Option<T>, dir: Directory, names: seq<string>, name: string)
    ensures Collect(pick, dir, names + [name]) ==
            if IsDocumentName(name) && name in dir && pick(dir[name]).Some? then Collect(pick, dir, names) + [pick(dir[name]).value]
            else Collect(pick, dir, names)
  {
    hide IsDocumentName;
    assert (names + [name])[..|names|] == names;
  }

  /** What the file system answers while a store is opened: whether the directories could be made and listed, and
      which documents can be read. */
  datatype Opening = Opening(made: bool, listed: bool, readsJob: string -> bool, readsDefinition: string -> bool)

  /** `NewFile`. It fails exactly when a directory cannot be made or listed or a job cannot be read; else every
      decodable job and every readable definition is back. */
  method Open(disk: Disk, jobNames: seq<string>, definitionNames: seq<string>, o: Opening) returns (f: File?)
    ensures f != null <==> o.made && o.listed && AllReadable(disk.jobs, jobNames, o.readsJob)
    ensures f != null ==> fresh(f) && f.State() == Reopen(disk, jobNames, Filter(o.readsDefinition, definitionNames))
  {
    hide SortBy, Collect, IndexBy, JobBefore, DefinitionBefore, AllReadable, Filter;
    if !o.made || !o.listed {
      return null;
    }
    f := new File(disk);
    var ok := f.Load(jobNames, o.readsJob);
    if !ok {
      return null;
    }
    f.LoadDefinitions(definitionNames, o.readsDefinition);
  }

  method Contents(rs: seq<FindingRecord>) returns (fs: seq<Finding>)
    ensures fs == old(Values(rs))
  {
    fs := [];
    for i := 0 to |rs|
      invariant |fs| == i && forall k :: 0 <= k < i ==> fs[k] == rs[k].Value()
    {
      fs := fs + [rs[i].Value()];
    }
  }

  lemma ListedStep(jobs: map<string, Job>, order: seq<string>, workspace: string)
    requires order != []
    ensures var id := order[|order| - 1];
            var rest := JobsListed(jobs, order[..|order| - 1], workspace);
            JobsListed(jobs, order, workspace)
            == if id in jobs && (workspace == "" || jobs[id].workspace == workspace) then [jobs[id]] + rest else rest
  {
  }

  lemma ListedNone(jobs: map<string, Job>, workspace: string)
    ensures JobsListed(jobs, [], workspace) == []
  {
  }
}
